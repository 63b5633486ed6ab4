/**
 What becomes of the responses that the read loop of a requesting socket takes off the stream
 (sock.go:566-576): when its send to a channel has to wait, and for whom; and what the user of a
 stream request receives.
 */
module Responses {
  import opened Bytes
  import opened Requestor

  // ----- When the send to a single request waits ----------------------------------------------

  predicate IsSingle(s: State, c: nat) {
    c in s.calls && !IsStream(s.calls[c].pc)
  }

  /** The reader carries responses to known calls only. */
  predicate CarriesKnown(s: State) {
    s.reader.InTransit? ==> s.reader.e.call in s.calls
  }

  /** What there is for a call in its channel and on the way there. */
  function Load(s: State, c: nat): nat {
    (if c in s.calls && s.calls[c].chan.Some? then 1 else 0) + if Carrying(s, c) then 1 else 0
  }

  /**
    * What a step adds to that: a response that finds the call's entry, or Close's error, and less what the
    * call receives.
    */
  function Gain(s: State, step: Step, c: nat): int {
    match step
    case Take(r) => if r.id in s.pending && s.pending[r.id].call == c then 1 else 0
    case Drain => if c in s.calls && IsPending(s, c) && s.calls[c].chan.None? then 1 else 0
    case Receive(d) => if d == c then -1 else 0
    case _ => 0
  }

  /** Responses found, and Close's error, less those received, over a run. */
  function Balance(s: State, steps: seq<Step>, c: nat): int
    requires Exec(s, steps).Some?
    decreases |steps|
  {
    if steps == [] then 0 else Gain(s, steps[0], c) + Balance(Apply(s, steps[0]), steps[1..], c)
  }

  lemma StepCarriesKnown(s: State, step: Step)
    requires Filed(s) && CarriesKnown(s) && Enabled(s, step)
    ensures CarriesKnown(Apply(s, step))
  {
    if step.Take? && step.r.id in s.pending {
      assert FiledAt(s, step.r.id);
    }
  }

  lemma StepLoad(s: State, step: Step, c: nat)
    requires Enabled(s, step) && IsSingle(s, c)
    ensures Load(Apply(s, step), c) == Load(s, c) + Gain(s, step, c)
  {
  }

  lemma NewLoad(s: State, step: Step, c: nat)
    requires Enabled(s, step) && c !in s.calls && Filed(s) && CarriesKnown(s)
    ensures Gain(s, step, c) == 0 && Load(s, c) == 0
    ensures IsSingle(Apply(s, step), c) || c !in Apply(s, step).calls ==> Load(Apply(s, step), c) == 0
  {
    if step.Take? && step.r.id in s.pending {
      assert FiledAt(s, step.r.id);
    }
  }

  lemma StepIsStream(s: State, step: Step, c: nat)
    requires Enabled(s, step) && c in s.calls
    ensures c in Apply(s, step).calls && IsStream(Apply(s, step).calls[c].pc) == IsStream(s.calls[c].pc)
  {
  }

  lemma {:induction false} ExecIsStream(s: State, steps: seq<Step>, c: nat)
    requires c in s.calls && Exec(s, steps).Some?
    ensures var r := Exec(s, steps).value; c in r.calls && IsStream(r.calls[c].pc) == IsStream(s.calls[c].pc)
    decreases |steps|
  {
    hide Enabled, Apply, IsStream;
    if steps != [] {
      StepIsStream(s, steps[0], c);
      ExecIsStream(Apply(s, steps[0]), steps[1..], c);
    }
  }

  lemma {:induction false} ExecLoad(s: State, steps: seq<Step>, c: nat)
    requires Filed(s) && CarriesKnown(s) && Exec(s, steps).Some? && IsSingle(Exec(s, steps).value, c)
    ensures Load(Exec(s, steps).value, c) == Load(s, c) + Balance(s, steps, c)
    decreases |steps|
  {
    hide Enabled, Apply, Filed, CarriesKnown, IsStream, Load, Gain;
    if steps != [] {
      var s' := Apply(s, steps[0]);
      StepFiled(s, steps[0]);
      StepCarriesKnown(s, steps[0]);
      if c in s.calls {
        ExecIsStream(s, steps, c);
        StepLoad(s, steps[0], c);
      } else {
        NewLoad(s, steps[0], c);
        if c in s'.calls {
          ExecIsStream(s', steps[1..], c);
        }
      }
      ExecLoad(s', steps[1..], c);
    }
  }

  /**
   When the send to a BufferRequest waits, in every run: exactly if two more things have been sent
   its way than it has received, one in its channel and one in the hands of the read loop. If the
   call has returned by then, the loop is blocked for good.
   */
  lemma BlocksExactly(steps: seq<Step>, c: nat)
    requires After(steps).Some? && IsSingle(After(steps).value, c)
    ensures var s := After(steps).value;
            && 0 <= Balance(Initial(), steps, c) <= 2
            && (Carrying(s, c) && !Enabled(s, Deliver) <==> Balance(Initial(), steps, c) == 2)
            && (s.calls[c].pc.Returned? ==>
                 (Blocked(s) && s.reader.e.call == c <==> Balance(Initial(), steps, c) == 2))
  {
    ExecLoad(Initial(), steps, c);
    hide Balance, Exec;
  }

  // ----- When the send to a stream request waits ----------------------------------------------

  /**
   As long as single requests are not answered in parts, the read loop waits exactly while the user
   of the stream request that the response is for does not receive.
   */
  lemma DeliveryWaitsForReceiver(steps: seq<Step>)
    requires After(steps).Some?
    requires var s := After(steps).value; !s.overrun && !s.streamed && s.reader.InTransit?
    ensures var s := After(steps).value;
            && s.reader.e.call in s.calls
            && (!Enabled(s, Deliver) <==> s.calls[s.reader.e.call].pc.StreamIdle?)
  {
    DeliveryNeverBlocks(steps);
  }

  /** Single request c waits for its response while the read loop waits for the user of stream request d. */
  predicate HeldUp(s: State, d: nat, c: nat) {
    && s.reader.InTransit? && s.reader.e.call == d && d in s.calls && s.calls[d].pc.StreamIdle?
    && c in s.calls && s.calls[c].pc.Waiting? && s.calls[c].chan.None?
  }

  lemma StepHeldUp(s: State, step: Step, d: nat, c: nat)
    requires HeldUp(s, d, c) && Enabled(s, step) && step != StreamReceive(d) && step != Drain
    ensures HeldUp(Apply(s, step), d, c)
  {
  }

  /** Nothing but a receive on the stream request, or the close of the socket, can end this. */
  lemma {:induction false} HeldUpUntilReceived(s: State, steps: seq<Step>, d: nat, c: nat)
    requires HeldUp(s, d, c) && Exec(s, steps).Some? && StreamReceive(d) !in steps && Drain !in steps
    ensures HeldUp(Exec(s, steps).value, d, c)
    decreases |steps|
  {
    hide Enabled, Apply, HeldUp;
    if steps != [] {
      StepHeldUp(s, steps[0], d, c);
      HeldUpUntilReceived(Apply(s, steps[0]), steps[1..], d, c);
    }
  }

  /** A stream request whose user does not receive stops every other request on a connection that works. */
  lemma IdleStreamHoldsUp(op: seq<byte>, data: seq<byte>) returns (steps: seq<Step>, s: State)
    ensures After(steps) == Some(s) && !s.overrun && !s.streamed && s.torn == {} && s.closing.Open?
    ensures HeldUp(s, 8, 7)
  {
    steps, s := SendOne(op, data);
    steps, s := Then(steps, s, OpenStream(8, op));
    steps, s := Then(steps, s, Take(Response(Part, 1, data)));
  }

  // ----- What the user of a stream request receives -------------------------------------------

  /** The responses handed over to call c in a run, in order. */
  function Got(s: State, steps: seq<Step>, c: nat): seq<Response>
    requires Exec(s, steps).Some?
    decreases |steps|
  {
    if steps == [] then []
    else
      (if steps[0].Deliver? && s.reader.e.call == c then [s.reader.r] else [])
      + Got(Apply(s, steps[0]), steps[1..], c)
  }

  /** The responses with an id that arrive in a run. */
  function Arrived(steps: seq<Step>, id: nat): seq<Response> {
    if steps == [] then []
    else (if steps[0].Take? && steps[0].r.id == id then [steps[0].r] else []) + Arrived(steps[1..], id)
  }

  /** Up to and with the first that is not a part. */
  function UpToEnd(rs: seq<Response>): seq<Response> {
    if rs == [] then [] else if rs[0].kind.Part? then [rs[0]] + UpToEnd(rs[1..]) else [rs[0]]
  }

  /** The table knows the stream request c under this id, and under no other. */
  predicate IsUnder(s: State, c: nat, id: nat) {
    && c in s.calls && IsStream(s.calls[c].pc)
    && (id in s.pending ==> s.pending[id].call == c)
    && (forall k :: k in s.pending && s.pending[k].call == c ==> k == id)
  }

  function Held(s: State, c: nat): seq<Response> {
    if Carrying(s, c) then [s.reader.r] else []
  }

  lemma StepIsUnder(s: State, step: Step, c: nat, id: nat)
    requires IsUnder(s, c, id) && Enabled(s, step) && NotReissued(s.regs, Apply(s, step), id)
    ensures IsUnder(Apply(s, step), c, id)
    ensures id in Apply(s, step).pending ==> id in s.pending
  {
    assert Apply(s, step).regs > s.regs ==> s.regs % TWO_32 != id;
  }

  lemma StepHeld(s: State, step: Step, c: nat, id: nat)
    requires IsUnder(s, c, id) && Enabled(s, step)
    ensures var h, h' := Held(s, c), Held(Apply(s, step), c);
            if step.Deliver? && s.reader.e.call == c then h == [s.reader.r] && h' == []
            else if step.Take? && step.r.id == id && id in s.pending then h == [] && h' == [step.r]
            else h' == h
  {
  }

  /** Whether the entry stays: a part leaves it, any other response takes it out. */
  lemma StepEntry(s: State, step: Step, id: nat)
    requires Enabled(s, step) && step.Take? && step.r.id == id && id in s.pending
    ensures id in Apply(s, step).pending <==> step.r.kind.Part?
  {
  }

  lemma OnlyResponsesHold(s: State, step: Step, c: nat, id: nat)
    requires IsUnder(s, c, id) && Enabled(s, step) && step.Take?
    ensures Held(s, c) == []
  {
  }

  /** What is still due to call c from here on: what the reader holds for it, and what arrives while its entry lasts. */
  function Due(s: State, steps: seq<Step>, c: nat, id: nat): seq<Response> {
    Held(s, c) + if id in s.pending then UpToEnd(Arrived(steps, id)) else []
  }

  /** What step hands over to call c. */
  function Handed(s: State, step: Step, c: nat): seq<Response>
    requires Enabled(s, step)
  {
    if step.Deliver? && s.reader.e.call == c then [s.reader.r] else []
  }

  lemma ArrivedStep(steps: seq<Step>, id: nat)
    requires steps != []
    ensures var rest := Arrived(steps[1..], id);
            if steps[0].Take? && steps[0].r.id == id then
              && Arrived(steps, id) == [steps[0].r] + rest
              && UpToEnd(Arrived(steps, id)) == [steps[0].r] + if steps[0].r.kind.Part? then UpToEnd(rest) else []
            else Arrived(steps, id) == rest
  {
    var rest := Arrived(steps[1..], id);
    assert [] + rest == rest;
    if steps[0].Take? && steps[0].r.id == id {
      assert Arrived(steps, id)[1..] == rest;
    }
  }

  /** One step hands over the beginning of what is due, and leaves the rest due unless the entry is lost. */
  lemma DueStep(s: State, steps: seq<Step>, c: nat, id: nat)
    requires steps != [] && IsUnder(s, c, id) && Enabled(s, steps[0])
    requires NotReissued(s.regs, Apply(s, steps[0]), id)
    ensures var s' := Apply(s, steps[0]);
            && Handed(s, steps[0], c) + Due(s', steps[1..], c, id) <= Due(s, steps, c, id)
            && (id in s'.pending ==>
                 && Handed(s, steps[0], c) + Due(s', steps[1..], c, id) == Due(s, steps, c, id)
                 && (Due(s', steps[1..], c, id) == Held(s', c) + Arrived(steps[1..], id) ==>
                      Due(s, steps, c, id) == Held(s, c) + Arrived(steps, id)))
  {
    var step, s' := steps[0], Apply(s, steps[0]);
    StepIsUnder(s, step, c, id);
    StepHeld(s, step, c, id);
    ArrivedStep(steps, id);
    if step.Take? {
      OnlyResponsesHold(s, step, c, id);
      if step.r.id == id && id in s.pending {
        StepEntry(s, step, id);
      }
    }
    hide Apply, Enabled, IsUnder, Held, Arrived, UpToEnd;
    var h, h', rest := Held(s, c), Held(s', c), UpToEnd(Arrived(steps[1..], id));
    assert h + [] == h && h' + [] == h' && [] + h' == h';
    Associates(h, h', Arrived(steps[1..], id), rest);
  }

  lemma Associates(h: seq<Response>, h': seq<Response>, a: seq<Response>, b: seq<Response>)
    ensures h + (h' + a) == h + h' + a && h + (h' + b) == h + h' + b
    ensures [] + (h' + b) == h' + b && [] + (h' + a) == h' + a
    ensures h' + a == h' + b ==> a == b
  {
    assert h' + a == h' + b ==> (h' + a)[|h'|..] == (h' + b)[|h'|..];
    assert (h' + a)[|h'|..] == a && (h' + b)[|h'|..] == b;
  }

  lemma PrefixAfter(g: seq<Response>, a: seq<Response>, b: seq<Response>, d: seq<Response>)
    requires a <= b && g + b <= d
    ensures g + a <= d
  {
    assert g + a <= g + b;
  }

  lemma {:induction false} ExecGot(s: State, steps: seq<Step>, c: nat, id: nat)
    requires IsUnder(s, c, id) && Exec(s, steps).Some? && NotReissued(s.regs, Exec(s, steps).value, id)
    ensures Got(s, steps, c) <= Due(s, steps, c, id)
    decreases |steps|
  {
    hide Enabled, Apply, IsUnder, Due;
    if steps != [] {
      var s' := Apply(s, steps[0]);
      StepRegs(s, steps[0]);
      ExecRegs(s', steps[1..]);
      StepIsUnder(s, steps[0], c, id);
      ExecGot(s', steps[1..], c, id);
      DueStep(s, steps, c, id);
      PrefixAfter(Handed(s, steps[0], c), Got(s', steps[1..], c), Due(s', steps[1..], c, id), Due(s, steps, c, id));
    }
  }

  lemma {:induction false} ExecGotAll(s: State, steps: seq<Step>, c: nat, id: nat)
    requires IsUnder(s, c, id) && Exec(s, steps).Some? && NotReissued(s.regs, Exec(s, steps).value, id)
    requires id in Exec(s, steps).value.pending
    ensures id in s.pending
    ensures Got(s, steps, c) + Held(Exec(s, steps).value, c) == Due(s, steps, c, id)
    ensures Due(s, steps, c, id) == Held(s, c) + Arrived(steps, id)
    decreases |steps|
  {
    hide Enabled, Apply, IsUnder, Held;
    if steps == [] {
      assert [] + Held(s, c) == Held(s, c) + [] == Held(s, c);
    } else {
      var s' := Apply(s, steps[0]);
      StepRegs(s, steps[0]);
      ExecRegs(s', steps[1..]);
      StepIsUnder(s, steps[0], c, id);
      ExecGotAll(s', steps[1..], c, id);
      DueStep(s, steps, c, id);
      var g, got, held := Handed(s, steps[0], c), Got(s', steps[1..], c), Held(Exec(s, steps).value, c);
      assert g + got + held == g + (got + held);
    }
  }

  lemma OpenedIsUnder(s: State, c: nat, op: seq<byte>)
    requires Filed(s) && CarriesKnown(s) && Enabled(s, OpenStream(c, op))
    ensures var s' := Apply(s, OpenStream(c, op));
            IsUnder(s', c, s.regs % TWO_32) && Held(s', c) == [] && s.regs % TWO_32 in s'.pending
  {
    forall k | k in s.pending
      ensures s.pending[k].call != c
    {
      assert FiledAt(s, k);
    }
  }

  lemma {:induction false} ExecFiled(s: State, steps: seq<Step>)
    requires Filed(s) && CarriesKnown(s) && Exec(s, steps).Some?
    ensures Filed(Exec(s, steps).value) && CarriesKnown(Exec(s, steps).value)
    decreases |steps|
  {
    hide Enabled, Apply, Filed, CarriesKnown;
    if steps != [] {
      StepFiled(s, steps[0]);
      StepCarriesKnown(s, steps[0]);
      ExecFiled(Apply(s, steps[0]), steps[1..]);
    }
  }

  // ----- How long the request stays in the table ----------------------------------------------

  /** The step takes the entry under the id out, or is one by which the user of call c gives it up. */
  predicate Removes(step: Step, c: nat, id: nat) {
    || (step.Take? && step.r.id == id && !step.r.kind.Part?)
    || step == Tear(id) || step == StreamForget(c) || step.Drain?
  }

  /** Nobody else's registration in use has the id. */
  predicate IsSoleOwner(s: State, c: nat, id: nat) {
    && (forall d :: d in s.calls && d != c && Live(s.calls[d].pc).Some? ==> Live(s.calls[d].pc).value % TWO_32 != id)
    && (c in s.calls && Live(s.calls[c].pc).Some? ==> Live(s.calls[c].pc).value % TWO_32 == id)
  }

  lemma StepLive(s: State, step: Step, d: nat)
    requires Enabled(s, step) && d in Apply(s, step).calls && Live(Apply(s, step).calls[d].pc).Some?
    ensures var s' := Apply(s, step);
            || (d in s.calls && Live(s.calls[d].pc) == Live(s'.calls[d].pc))
            || (Live(s'.calls[d].pc).value == s.regs && s'.regs == s.regs + 1)
  {
    hide IsPending, Late;
  }

  lemma StreamLive(s: State, step: Step, d: nat)
    requires Enabled(s, step) && d in s.calls && IsStream(s.calls[d].pc)
    requires d in Apply(s, step).calls && Live(Apply(s, step).calls[d].pc).Some?
    ensures Live(s.calls[d].pc) == Live(Apply(s, step).calls[d].pc)
  {
    hide IsPending, Late;
  }

  lemma StepOwner(s: State, step: Step, c: nat, id: nat)
    requires IsUnder(s, c, id) && IsSoleOwner(s, c, id) && Enabled(s, step)
    requires NotReissued(s.regs, Apply(s, step), id)
    ensures IsSoleOwner(Apply(s, step), c, id)
  {
    var s' := Apply(s, step);
    assert s'.regs > s.regs ==> s.regs % TWO_32 != id;
    hide Apply, Enabled, Live, IsStream;
    forall d | d in s'.calls && Live(s'.calls[d].pc).Some?
      ensures (Live(s'.calls[d].pc).value % TWO_32 == id) ==> d == c
      ensures d == c ==> Live(s'.calls[d].pc).value % TWO_32 == id
    {
      StepLive(s, step, d);
      if d == c {
        StreamLive(s, step, c);
      }
    }
  }

  lemma StepRemoves(s: State, step: Step, c: nat, id: nat)
    requires IsUnder(s, c, id) && IsSoleOwner(s, c, id) && Enabled(s, step) && id in s.pending
    requires step == StreamForget(c) ==> Live(s.calls[c].pc).Some?
    ensures id in Apply(s, step).pending <==> !Removes(step, c, id)
  {
  }

  lemma {:induction false} ExecRemoves(s: State, steps: seq<Step>, c: nat, id: nat)
    requires IsUnder(s, c, id) && IsSoleOwner(s, c, id) && id in s.pending
    requires Exec(s, steps).Some? && NotReissued(s.regs, Exec(s, steps).value, id)
    ensures id in Exec(s, steps).value.pending <==> forall i :: 0 <= i < |steps| ==> !Removes(steps[i], c, id)
    decreases |steps|
  {
    hide Enabled, Apply, IsUnder, IsSoleOwner, Removes;
    if steps != [] {
      var s' := Apply(s, steps[0]);
      StepRegs(s, steps[0]);
      ExecRegs(s', steps[1..]);
      StepIsUnder(s, steps[0], c, id);
      StepOwner(s, steps[0], c, id);
      ForgetsOwn(s, steps[0], c);
      StepRemoves(s, steps[0], c, id);
      if id in s'.pending {
        ExecRemoves(s', steps[1..], c, id);
        assert forall i :: 1 <= i < |steps| ==> steps[i] == steps[1..][i - 1];
        assert forall i :: 0 <= i < |steps| - 1 ==> steps[1..][i] == steps[i + 1];
      } else {
        StaysOut(s', steps[1..], id);
      }
    }
  }

  lemma ForgetsOwn(s: State, step: Step, c: nat)
    requires Enabled(s, step)
    ensures step == StreamForget(c) ==> c in s.calls && Live(s.calls[c].pc).Some?
  {
  }

  lemma OpenedIsSole(s: State, c: nat, op: seq<byte>)
    requires Fresh(s) && Enabled(s, OpenStream(c, op)) && !Apply(s, OpenStream(c, op)).overrun
    ensures IsSoleOwner(Apply(s, OpenStream(c, op)), c, s.regs % TWO_32)
  {
    var s' := Apply(s, OpenStream(c, op));
    forall d | d in s'.calls && d != c && Live(s'.calls[d].pc).Some?
      ensures Live(s'.calls[d].pc).value % TWO_32 != s.regs % TWO_32
    {
      assert InWindow(s, d);
      if Live(s'.calls[d].pc).value % TWO_32 == s.regs % TWO_32 {
        SameIdSameReg(Live(s'.calls[d].pc).value, s.regs);
      }
    }
  }

  /**
   How long a stream request stays in the table, in every run: exactly until the first response that
   is not a part arrives with its id, a response to it is cut off, it is given up, or the socket is
   closed.
   */
  lemma InTableExactly(before: seq<Step>, c: nat, op: seq<byte>, steps: seq<Step>)
    requires After(before).Some? && Enabled(After(before).value, OpenStream(c, op))
    requires var s' := Apply(After(before).value, OpenStream(c, op));
             && Exec(s', steps).Some? && !s'.overrun
             && NotReissued(s'.regs, Exec(s', steps).value, After(before).value.regs % TWO_32)
    ensures var s := After(before).value; var s', id := Apply(s, OpenStream(c, op)), s.regs % TWO_32;
            id in Exec(s', steps).value.pending <==> forall i :: 0 <= i < |steps| ==> !Removes(steps[i], c, id)
  {
    var s := After(before).value;
    var s', id := Apply(s, OpenStream(c, op)), s.regs % TWO_32;
    ReachableInv(before);
    ExecFiled(Initial(), before);
    OpenedIsUnder(s, c, op);
    OverrunBefore(s, c, op);
    OpenedIsSole(s, c, op);
    hide Apply, Enabled, Filed, Fresh, AllAccounted, IsUnder, IsSoleOwner, Removes, Once;
    ExecRemoves(s', steps, c, id);
  }

  lemma OverrunBefore(s: State, c: nat, op: seq<byte>)
    requires Enabled(s, OpenStream(c, op)) && !Apply(s, OpenStream(c, op)).overrun
    ensures !s.overrun
  {
  }

  /**
   What the user of a stream request receives, in every run: the responses that arrived with its
   id, in order and without gaps, up to and with the first that is not a part, or fewer; and as
   long as the request is in the table, all of them but the one that the read loop may be holding.
   This lasts until the id is issued again.
   */
  lemma StreamGetsItsResponses(before: seq<Step>, c: nat, op: seq<byte>, steps: seq<Step>)
    requires After(before).Some? && Enabled(After(before).value, OpenStream(c, op))
    requires Exec(Apply(After(before).value, OpenStream(c, op)), steps).Some?
    requires var s := After(before).value; var s' := Apply(s, OpenStream(c, op));
             NotReissued(s'.regs, Exec(s', steps).value, s.regs % TWO_32)
    ensures var s := After(before).value; var s' := Apply(s, OpenStream(c, op));
            var id, r := s.regs % TWO_32, Exec(s', steps).value;
            && Got(s', steps, c) <= UpToEnd(Arrived(steps, id))
            && (id in r.pending ==> Got(s', steps, c) + Held(r, c) == Arrived(steps, id))
  {
    var s := After(before).value;
    var s', id := Apply(s, OpenStream(c, op)), s.regs % TWO_32;
    ExecFiled(Initial(), before);
    OpenedIsUnder(s, c, op);
    ExecGot(s', steps, c, id);
    hide Apply, Enabled, Filed, IsUnder, Held, Got, Arrived, UpToEnd;
    assert [] + UpToEnd(Arrived(steps, id)) == UpToEnd(Arrived(steps, id));
    if id in Exec(s', steps).value.pending {
      ExecGotAll(s', steps, c, id);
      assert [] + Arrived(steps, id) == Arrived(steps, id);
    }
  }
}
