/**
 A JavaScript peer and the answers that a Go peer writes for it (sock.go:399-448, 486-530,
 js/gotalk/index.js:363-429): which of them reach the callback of their request.
 */
module JsAnswers {
  import opened Bytes
  import opened Protocol
  import opened Wire
  import opened JsReader
  import opened OnWire
  import A = Requestor
  import B = Responder
  import C = Causes
  import J = JsRequests
  import R = ResChans
  import Q = JsSendQueue

  // ----- Ids ----------------------------------------------------------------------------------

  /** The bytes of an id on the wire, and String.fromCharCode.apply. */
  function IdBytes(id: string): (bs: seq<byte>)
    requires forall i :: 0 <= i < |id| ==> id[i] as int < 256
    ensures |bs| == |id|
  {
    seq(|id|, i requires 0 <= i < |id| => id[i] as int)
  }

  function IdChars(bs: seq<byte>): (id: string)
    ensures |id| == |bs|
  {
    seq(|bs|, i requires 0 <= i < |bs| => bs[i] as char)
  }

  /** The ids of requests are of four ASCII characters. */
  predicate IsWireId(id: string) {
    |id| == 4 && forall i :: 0 <= i < |id| ==> id[i] as int < 128
  }

  lemma {:induction false} DigitsAreAscii(n: nat)
    ensures forall i :: 0 <= i < |J.Digits(n)| ==> J.Digits(n)[i] as int < 128
  {
    if n >= 36 {
      DigitsAreAscii(n / 36);
    }
  }

  lemma IdsAreOnWire(stream: bool, num: nat)
    ensures IsWireId(J.IdOf(stream, num))
  {
    J.IdsAreDistinct(num % J.OP_IDS, 0);
    J.IdsAreDistinct(num % J.STREAM_IDS, 0);
    DigitsAreAscii(num % J.OP_IDS);
    DigitsAreAscii(num % J.STREAM_IDS);
    hide J.Digits;
  }

  /** The id by which Go knows the request, and back. */
  function Number(id: string): (n: nat)
    requires IsWireId(id)
    ensures n < TWO_32
  {
    R.NumberOf(IdBytes(id))
  }

  lemma IdComesBack(id: string)
    requires IsWireId(id)
    ensures IdChars(FormatRequestID(Number(id))) == id
  {
    R.OneToOne();
    hide FormatRequestID, R.NumberOf;
    assert FormatRequestID(Number(id)) == IdBytes(id);
    assert forall i :: 0 <= i < 4 ==> IdChars(IdBytes(id))[i] == id[i];
  }

  // ----- From the wire to the callback --------------------------------------------------------

  /** What handleRes does with a delivery, if it is one for it. */
  function StepOf(d: Delivery): Option<J.Step> {
    if d.msg.t == SINGLE_RES || d.msg.t == STREAM_RES || d.msg.t == ERROR_RES then
      Some(J.Response(d.msg.t == STREAM_RES && d.payload.Some? && d.payload.value != [], IdChars(d.msg.id)))
    else None
  }

  lemma ReplyStep(id: string, r: A.Response, wait: nat)
    requires IsWireId(id) && r.id == Number(id)
    ensures StepOf(DeliveryOf(ReplyMessage(r, wait))) ==
            if r.kind.Retry? then None else Some(J.Response(r.kind.Part? && r.data != [], id))
  {
    IdComesBack(id);
    hide FormatRequestID, Number;
  }

  /** A response for a waiting registration calls its callback; only a part that is not empty leaves it in the table. */
  lemma CallsBack(js: J.State, i: nat, part: bool)
    requires J.Inv(js) && J.HasEntry(js.regs, js.pending, i)
    ensures var js' := J.Apply(js, J.Response(part, js.regs[i].id));
            && i < |js'.regs|
            && js'.regs[i] ==
               js.regs[i].(calls := js.regs[i].calls + 1, parts := js.regs[i].parts + if part then 1 else 0)
            && (J.HasEntry(js'.regs, js'.pending, i) <==> part)
  {
    assert J.EntryOk(js, js.regs[i].id);
  }

  /** What the reader does with a reply of the Go peer. */
  function AfterReply(s: JsReader.State, r: A.Response, wait: nat): JsReader.State
    requires r.id < TWO_32
  {
    if r.kind.Retry? then s.(reason := Some(InvalidMsg), said := Some(2), ready := false)
    else s.(handled := s.handled + [DeliveryOf(ReplyMessage(r, wait))])
  }

  lemma ReplyIsDelivered(s: JsReader.State, r: A.Response, wait: nat)
    requires s.ready && s.mode.ReadMsg? && r.id < TWO_32 && wait < TWO_32 && |r.data| < TWO_32
    ensures Sendable(ReplyMessage(r, wait))
    ensures Direct(s, Q.FramesOf(AsMsg(ReplyMessage(r, wait)))) == AfterReply(s, r, wait)
  {
    ReplyIsRead(r, wait);
    hide Sendable, Direct, AsMsg, DeliveryOf, ReplyMessage;
    DeliveredByLetter(s, ReplyMessage(r, wait));
  }

  /**
   An answer on its way through the JavaScript peer, in every reachable state of its request table: a
   result, an error or a part that Go writes for a request is delivered and calls the callback of
   that very request, for the last time unless it is a part that is not empty. "Try again" is
   delivered to nobody, and makes the peer close the WebSocket as if it were no message at all.
   */
  lemma AnswerReachesCallback(steps: seq<J.Step>, i: nat, r: A.Response, wait: nat, s: JsReader.State)
    requires J.After(steps).Some?
    requires var js := J.After(steps).value; J.HasEntry(js.regs, js.pending, i) && IsWireId(js.regs[i].id)
    requires r.id == Number(J.After(steps).value.regs[i].id) && wait < TWO_32 && |r.data| < TWO_32
    requires s.ready && s.mode.ReadMsg?
    ensures Sendable(ReplyMessage(r, wait))
    ensures var js, d := J.After(steps).value, DeliveryOf(ReplyMessage(r, wait));
            var s' := Direct(s, Q.FramesOf(AsMsg(ReplyMessage(r, wait))));
            if r.kind.Retry? then s' == s.(reason := Some(InvalidMsg), said := Some(2), ready := false)
            else
              && s' == s.(handled := s.handled + [d]) && StepOf(d).Some?
              && var js' := J.Apply(js, StepOf(d).value);
                 && i < |js'.regs| && js'.regs[i].calls == js.regs[i].calls + 1
                 && (J.HasEntry(js'.regs, js'.pending, i) <==> r.kind.Part? && r.data != [])
  {
    J.ExecInv(J.Initial(), steps);
    var js := J.After(steps).value;
    hide J.Exec, J.Inv, J.Apply, J.HasEntry, Direct, AsMsg, Sendable, ReplyMessage, DeliveryOf, StepOf, Number;
    ReplyIsDelivered(s, r, wait);
    ReplyStep(js.regs[i].id, r, wait);
    CallsBack(js, i, r.kind.Part? && r.data != []);
  }

  /** The ids of all requests in the table are such ids. */
  lemma EntriesAreOnWire(steps: seq<J.Step>, i: nat)
    requires J.After(steps).Some? && J.HasEntry(J.After(steps).value.regs, J.After(steps).value.pending, i)
    ensures IsWireId(J.After(steps).value.regs[i].id)
  {
    J.ExecInv(J.Initial(), steps);
    var js := J.After(steps).value;
    assert J.EntryOk(js, js.regs[i].id);
    IdsAreOnWire(js.regs[i].stream, js.regs[i].num);
    hide J.IdOf;
  }

  /**
   So a request to a Go peer is answered unless that peer was full when it arrived: then the
   connection is closed, for all requests of this one.
   */
  lemma AnsweredUnlessFull(lim: C.Limits, steps: seq<B.Step>, j: nat, wait: nat, s: JsReader.State)
    requires C.IsRun(lim, steps) && j < |C.End(lim, steps).out|
    requires var r := C.End(lim, steps).out[j].r; r.id < TWO_32 && |r.data| < TWO_32 && wait < TWO_32
    requires s.ready && s.mode.ReadMsg?
    ensures var b := C.End(lim, steps);
            var k, m := b.out[j].k, ReplyMessage(b.out[j].r, wait);
            && Sendable(m)
            && var s' := Direct(s, Q.FramesOf(AsMsg(m)));
               if C.FateOf(lim, steps, k).over && !(B.IsStream(b, k) && lim.stream == 0) then
                 s' == s.(reason := Some(InvalidMsg), said := Some(2), ready := false)
               else s' == s.(handled := s.handled + [DeliveryOf(m)])
  {
    hide C.IsRun, C.End, C.FateOf, Direct, AsMsg, Sendable, ReplyMessage, DeliveryOf;
    C.RetryMeansFull(lim, steps, j);
    ReplyIsDelivered(s, C.End(lim, steps).out[j].r, wait);
  }
}
