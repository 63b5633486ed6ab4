/**
 Concurrent writers on one connection (sock.go:240-253, 666-675, 838-848, 858-868). Every
 goroutine takes connmu around the one or two writes of its message; the states below are all
 that an arbitrary interleaving of them can produce.
 */
module Writers {
  import opened Bytes
  import opened Protocol
  import opened Wire
  import opened ReadLoop
  import opened Verdicts

  /** Where a goroutine is inside writeMsg, SendHeartbeat or CloseError. */
  datatype Pc = Waiting(m: Message) | Locked(m: Message) | HeaderOut(m: Message) | Written

  /** `sent` lists the messages whose last byte has been written. */
  datatype State = State(lock: Option<nat>, pcs: map<nat, Pc>, wire: seq<byte>, sent: seq<Message>, dead: bool)

  datatype Step =
    | Call(t: nat, m: Message)
    | Lock(t: nat)
    | WriteHeader(t: nat)
    | WritePayload(t: nat)
    | Break(t: nat, part: seq<byte>) // the transport takes only `part` of a write and dies
    | Refuse(t: nat)                 // a write on a dead connection fails
    | Unlock(t: nat)
    | Close

  function Initial(): State {
    State(None, map[], [], [], false)
  }

  /** What the next write of a goroutine is given. */
  function Chunk(pc: Pc): seq<byte>
    requires (pc.Locked? || pc.HeaderOut?) && Sendable(pc.m)
  {
    if pc.Locked? then HeaderBytes(pc.m) else pc.m.payload
  }

  predicate Enabled(s: State, step: Step) {
    match step
    case Call(t, m) => t !in s.pcs && Sendable(m)
    case Lock(t) => t in s.pcs && s.pcs[t].Waiting? && s.lock.None?
    case WriteHeader(t) => t in s.pcs && s.pcs[t].Locked? && Sendable(s.pcs[t].m) && !s.dead
    case WritePayload(t) => t in s.pcs && s.pcs[t].HeaderOut? && !s.dead
    case Break(t, part) =>
      && t in s.pcs && (s.pcs[t].Locked? || s.pcs[t].HeaderOut?) && Sendable(s.pcs[t].m) && !s.dead
      && part < Chunk(s.pcs[t])
    case Refuse(t) => t in s.pcs && (s.pcs[t].Locked? || s.pcs[t].HeaderOut?) && s.dead
    case Unlock(t) => t in s.pcs && s.pcs[t].Written?
    case Close => s.lock.None?
  }

  function Apply(s: State, step: Step): State
    requires Enabled(s, step)
  {
    match step
    case Call(t, m) => s.(pcs := s.pcs[t := Waiting(m)])
    case Lock(t) => s.(lock := Some(t), pcs := s.pcs[t := Locked(s.pcs[t].m)])
    case WriteHeader(t) =>
      var m := s.pcs[t].m;
      if m.payload == [] then
        s.(wire := s.wire + HeaderBytes(m), sent := s.sent + [m], pcs := s.pcs[t := Written])
      else
        s.(wire := s.wire + HeaderBytes(m), pcs := s.pcs[t := HeaderOut(m)])
    case WritePayload(t) =>
      var m := s.pcs[t].m;
      s.(wire := s.wire + m.payload, sent := s.sent + [m], pcs := s.pcs[t := Written])
    case Break(t, part) => s.(wire := s.wire + part, dead := true, pcs := s.pcs[t := Written])
    case Refuse(t) => s.(pcs := s.pcs[t := Written])
    case Unlock(t) => s.(lock := None, pcs := s.pcs - {t})
    case Close => s.(dead := true)
  }

  /** The state after the given steps, if each was possible when it was taken. */
  function Exec(s: State, steps: seq<Step>): Option<State>
    decreases |steps|
  {
    if steps == [] then Some(s)
    else if Enabled(s, steps[0]) then Exec(Apply(s, steps[0]), steps[1..])
    else None
  }

  /** A run from the beginning. */
  function After(steps: seq<Step>): Option<State> {
    Exec(Initial(), steps)
  }

  // ----- The invariant ------------------------------------------------------------------------

  predicate Exclusive(s: State) {
    && (forall t :: t in s.pcs && !s.pcs[t].Waiting? ==> s.lock == Some(t))
    && (s.lock.Some? ==> s.lock.value in s.pcs && !s.pcs[s.lock.value].Waiting?)
  }

  predicate AllSendable(s: State) {
    && (forall m :: m in s.sent ==> Sendable(m))
    && (forall t :: t in s.pcs && !s.pcs[t].Written? ==> Sendable(s.pcs[t].m))
  }

  /** The message whose header is out and whose payload is not, if any. */
  function InFlight(s: State): Option<Message> {
    if s.lock.Some? && s.lock.value in s.pcs && s.pcs[s.lock.value].HeaderOut? then Some(s.pcs[s.lock.value].m)
    else None
  }

  /** The wire is whole frames, then `tail`: the start of the frame of m that is being written or was cut. */
  ghost predicate Framed(s: State, tail: seq<byte>, m: Message)
    requires AllSendable(s)
  {
    && Sendable(m)
    && tail < FrameBytes(m)
    && s.wire == Stream(s.sent) + tail
    && (!s.dead ==> match InFlight(s)
                    case Some(k) => m == k && tail == HeaderBytes(k)
                    case None => tail == [])
  }

  ghost predicate Inv(s: State) {
    Exclusive(s) && AllSendable(s) && exists tail, m :: Framed(s, tail, m)
  }

  /** Some message that can be sent: a heartbeat. */
  function AnyMessage(): (m: Message)
    ensures Sendable(m)
  {
    Message(Header(HEARTBEAT, [], [], 0, 0), [])
  }

  lemma InitialInv()
    ensures Inv(Initial())
  {
    assert Framed(Initial(), [], AnyMessage());
  }

  lemma HeaderKeepsFraming(s: State, step: Step, tail: seq<byte>, m: Message)
    requires Exclusive(s) && AllSendable(s) && Framed(s, tail, m) && Enabled(s, step) && step.WriteHeader?
    ensures var s' := Apply(s, step); AllSendable(s') && exists tail', m' :: Framed(s', tail', m')
  {
    hide Sendable, HeaderBytes, Stream;
    var s' := Apply(s, step);
    var k := s.pcs[step.t].m;
    assert AllSendable(s');
    if k.payload == [] {
      StreamAppend(s.sent, k);
      assert HeaderBytes(k) + k.payload == HeaderBytes(k);
      assert Stream(s'.sent) + [] == Stream(s.sent) + FrameBytes(k);
      assert Framed(s', [], k);
    } else {
      assert HeaderBytes(k) < FrameBytes(k);
      assert s'.wire == Stream(s'.sent) + HeaderBytes(k);
      assert Framed(s', HeaderBytes(k), k);
    }
  }

  lemma PayloadKeepsFraming(s: State, step: Step, tail: seq<byte>, m: Message)
    requires Exclusive(s) && AllSendable(s) && Framed(s, tail, m) && Enabled(s, step) && step.WritePayload?
    ensures var s' := Apply(s, step); AllSendable(s') && exists tail', m' :: Framed(s', tail', m')
  {
    hide Sendable, HeaderBytes, Stream;
    var s' := Apply(s, step);
    assert s.pcs[step.t].m == m;
    assert AllSendable(s');
    StreamAppend(s.sent, m);
    assert s'.wire == Stream(s'.sent) + [];
    assert Framed(s', [], m);
  }

  lemma BreakKeepsFraming(s: State, step: Step, tail: seq<byte>, m: Message)
    requires Exclusive(s) && AllSendable(s) && Framed(s, tail, m) && Enabled(s, step) && step.Break?
    ensures var s' := Apply(s, step); AllSendable(s') && exists tail', m' :: Framed(s', tail', m')
  {
    hide Sendable, HeaderBytes, Stream;
    var s' := Apply(s, step);
    var k := s.pcs[step.t].m;
    assert AllSendable(s');
    var tail' := tail + step.part;
    if s.pcs[step.t].HeaderOut? {
      assert m == k;
      PartOf(tail, step.part, k.payload);
    } else {
      assert tail == [] && [] + step.part == step.part;
      PartOf([], step.part, HeaderBytes(k));
      assert [] + HeaderBytes(k) == HeaderBytes(k);
    }
    assert tail' < FrameBytes(k);
    assert Stream(s.sent) + tail + step.part == Stream(s.sent) + tail';
    hide FrameBytes;
    assert Framed(s', tail', k);
  }

  lemma PartOf(front: seq<byte>, part: seq<byte>, whole: seq<byte>)
    requires part < whole
    ensures front + part < front + whole
  {
  }

  lemma OtherKeepsFraming(s: State, step: Step, tail: seq<byte>, m: Message)
    requires Exclusive(s) && AllSendable(s) && Framed(s, tail, m) && Enabled(s, step)
    requires !step.WriteHeader? && !step.WritePayload? && !step.Break?
    ensures var s' := Apply(s, step); AllSendable(s') && Framed(s', tail, m)
  {
    hide Sendable, HeaderBytes, FrameBytes, Stream;
    var s' := Apply(s, step);
    assert s'.wire == s.wire && s'.sent == s.sent;
    assert AllSendable(s');
    assert !s'.dead ==> InFlight(s') == InFlight(s);
  }

  lemma StepExclusive(s: State, step: Step)
    requires Exclusive(s) && Enabled(s, step)
    ensures Exclusive(Apply(s, step))
  {
  }

  lemma StepInv(s: State, step: Step)
    requires Inv(s) && Enabled(s, step)
    ensures Inv(Apply(s, step))
  {
    hide Sendable, Framed, Enabled, Apply, Exclusive, AllSendable;
    var tail, m :| Framed(s, tail, m);
    StepExclusive(s, step);
    if step.WriteHeader? {
      HeaderKeepsFraming(s, step, tail, m);
    } else if step.WritePayload? {
      PayloadKeepsFraming(s, step, tail, m);
    } else if step.Break? {
      BreakKeepsFraming(s, step, tail, m);
    } else {
      OtherKeepsFraming(s, step, tail, m);
    }
  }

  lemma {:induction false} ExecInv(s: State, steps: seq<Step>)
    requires Inv(s) && Exec(s, steps).Some?
    ensures Inv(Exec(s, steps).value)
    decreases |steps|
  {
    hide Inv, Enabled, Apply;
    if steps != [] {
      StepInv(s, steps[0]);
      ExecInv(Apply(s, steps[0]), steps[1..]);
    }
  }

  /** In every interleaving at most one goroutine is anywhere between its Lock and its Unlock. */
  lemma OneWriterAtATime(steps: seq<Step>, t: nat, u: nat)
    requires After(steps).Some?
    requires var s := After(steps).value; t in s.pcs && u in s.pcs && !s.pcs[t].Waiting? && !s.pcs[u].Waiting?
    ensures t == u
  {
    InitialInv();
    ExecInv(Initial(), steps);
  }

  // ----- Whose messages they are --------------------------------------------------------------

  /** Every run of one step more is a run and a step. */
  lemma {:induction false} ExecSplits(s: State, steps: seq<Step>)
    requires steps != [] && Exec(s, steps).Some?
    ensures var init, last := steps[..|steps| - 1], steps[|steps| - 1];
            && Exec(s, init).Some? && Enabled(Exec(s, init).value, last)
            && Exec(s, steps) == Some(Apply(Exec(s, init).value, last))
    decreases |steps|
  {
    hide Enabled, Apply;
    var init, last := steps[..|steps| - 1], steps[|steps| - 1];
    if |steps| == 1 {
      assert init == [] && steps[1..] == [];
      assert Exec(Apply(s, last), []) == Some(Apply(s, last));
    } else {
      assert init[1..] == steps[1..][..|steps| - 2];
      ExecSplits(Apply(s, steps[0]), steps[1..]);
    }
  }

  /** The message that a goroutine was called with last. */
  function Given(steps: seq<Step>, t: nat): Option<Message> {
    if steps == [] then None
    else
      match steps[|steps| - 1]
      case Call(u, m) => if u == t then Some(m) else Given(steps[..|steps| - 1], t)
      case _ => Given(steps[..|steps| - 1], t)
  }

  /** The messages whose last write succeeded, each as its goroutine was given it, in the order of those writes. */
  function Completed(steps: seq<Step>): seq<Message> {
    if steps == [] then []
    else
      var init := steps[..|steps| - 1];
      Completed(init) +
      match steps[|steps| - 1]
      case WriteHeader(t) =>
        if Given(init, t).Some? && Given(init, t).value.payload == [] then [Given(init, t).value] else []
      case WritePayload(t) => if Given(init, t).Some? then [Given(init, t).value] else []
      case _ => []
  }

  /** Goroutines hold the messages they were called with, and only a message with a payload has one to write. */
  predicate HoldsGiven(s: State, steps: seq<Step>, t: nat) {
    t in s.pcs && !s.pcs[t].Written? ==>
      Given(steps, t) == Some(s.pcs[t].m) && (s.pcs[t].HeaderOut? ==> s.pcs[t].m.payload != [])
  }

  lemma {:induction false} SentIsCompleted(steps: seq<Step>)
    requires After(steps).Some?
    ensures After(steps).value.sent == Completed(steps)
    ensures forall t :: HoldsGiven(After(steps).value, steps, t)
    decreases |steps|
  {
    if steps != [] {
      hide Exec, Sendable, HeaderBytes;
      ExecSplits(Initial(), steps);
      var init, last := steps[..|steps| - 1], steps[|steps| - 1];
      SentIsCompleted(init);
      var s := After(init).value;
      if last.WriteHeader? || last.WritePayload? {
        assert HoldsGiven(s, init, last.t);
      }
      forall t
        ensures HoldsGiven(Apply(s, last), steps, t)
      {
        assert HoldsGiven(s, init, t);
      }
    }
  }

  /** Whoever holds the lock can go on, and if nobody does, whoever waits can take it: no writer is stuck. */
  lemma WritersMoveOn(steps: seq<Step>, t: nat)
    requires After(steps).Some? && t in After(steps).value.pcs
    ensures var s := After(steps).value;
            if s.lock.None? then Enabled(s, Lock(t))
            else
              var u := s.lock.value;
              || Enabled(s, WriteHeader(u)) || Enabled(s, WritePayload(u)) || Enabled(s, Refuse(u))
              || Enabled(s, Unlock(u))
  {
    InitialInv();
    ExecInv(Initial(), steps);
    hide Sendable, FrameBytes;
  }

  /**
   End to end: after any interleaving of any number of writers, including one cut off in the
   middle of a write, the peer's read loop on the bytes written so far does exactly what it
   would do with the completed messages one by one, in the order in which they were completed.
   Each of them is what some goroutine was called with, and the loop does with it what its letter
   and the state of the peer demand, up to the first that has to end it.
   */
  lemma EndToEnd(steps: seq<Step>, choices: nat -> Choice, end: End)
    requires After(steps).Some?
    ensures var s := After(steps).value;
            && (forall m :: m in s.sent ==> Sendable(m))
            && s.sent == Completed(steps)
            && var tr, sv := Run(choices, 0, s.wire, end), Serve(choices, 0, s.sent);
               var n := |tr.events|;
               && tr.events == sv.0
               && (end.Eof? && sv.1.Some? ==> tr.reason == sv.1.value)
               && n <= |s.sent|
               && (forall k :: 0 <= k < n ==> tr.events[k].m == s.sent[k])
               && AllRight(choices, 0, tr.events)
               && (match sv.1
                   case None => n == |s.sent| && (n > 0 ==> !IsLast(choices(n - 1), tr.events[n - 1]))
                   case Some(reason) =>
                     || (n > 0 && EndsWith(choices(n - 1), tr.events[n - 1], reason))
                     || (n < |s.sent| && Halts(choices(n), s.sent[n].h, reason)))
  {
    hide Run, Serve, Apply, Sendable, FrameBytes, AllRight, EndsWith, IsLast, Halts, Completed;
    InitialInv();
    ExecInv(Initial(), steps);
    SentIsCompleted(steps);
    var s := After(steps).value;
    var tail, m :| Framed(s, tail, m);
    RunServes(choices, 0, s.sent, tail, end);
    CutFrameIsNotServed(choices, |s.sent|, m, tail, end);
    ServeInOrder(choices, 0, s.sent);
    ServeIsRight(choices, 0, s.sent);
  }
}
