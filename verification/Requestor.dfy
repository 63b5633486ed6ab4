/**
 The requesting side of a socket (sock.go:185-203, 257-345, 555-579, 858-911, request.go:45-50):
 calls of BufferRequest and StreamRequest in any number of goroutines, the table of pending
 responses they share, the read loop that answers them and whoever closes the socket. One step
 is one critical section, one channel operation or one atomic operation.
 */
module Requestor {
  import opened Bytes

  /** Response types 'R', 'S', 'E' and 'e'. */
  datatype Kind = Result | Part | Failure | Retry

  datatype Response = Response(kind: Kind, id: nat, data: seq<byte>)

  /** A request as written; `reg` is a history variable that no step reads. */
  datatype Request = Request(id: nat, op: seq<byte>, data: seq<byte>, reg: nat)

  /** What a response channel carries: an answer of the peer, or Close's error. */
  datatype Answer = FromPeer(r: Response) | FromClose

  datatype Outcome = SendError | Got(a: Answer)

  /**
   Where a call is. `reg` is the number of its current registration, `live` the same for a
   StreamRequest until finalize has cleared its id or its user has no more use for it.
   */
  datatype Pc =
    | Ready                         // BufferRequest, about to register
    | Registered(reg: nat)          // about to write
    | WriteFailed(reg: nat)         // about to forget its registration
    | Waiting(reg: nat)             // <-reschan, a channel of capacity one
    | Returned(o: Outcome)
    | StreamIdle(live: Option<nat>)      // StreamRequest: its user is not receiving
    | StreamReceiving(live: Option<nat>) // its user receives from the unbuffered channel

  datatype Call = Call(op: seq<byte>, data: seq<byte>, pc: Pc, chan: Option<Answer>)

  /** A value of the pendingRes table: a channel, named by its call. */
  datatype Entry = Entry(call: nat, reg: nat)

  datatype Reader = Reading | InTransit(e: Entry, r: Response) | Stopped | Finished

  /** The closex switch, and the critical section of the goroutine that won it. */
  datatype Closing = Open | Won | Drained

  datatype State = State(
    regs: nat,                   // registrations made; nextOpID is regs modulo 2^32
    pending: map<nat, Entry>,    // pendingRes
    calls: map<nat, Call>,
    reader: Reader,
    closing: Closing,
    sent: seq<Request>,          // history: requests written
    answers: map<nat, Response>, // history: the response taken for a registration
    torn: set<nat>,              // history: registrations of BufferRequests forgotten by the read loop
    overrun: bool,               // history: an id was issued 2^32 registrations after one in use
    streamed: bool,              // history: a BufferRequest was answered with 'S'
    told: set<nat>)              // history: calls that Close has sent its error to

  datatype Step =
    | NewCall(c: nat, op: seq<byte>, data: seq<byte>)
    | Register(c: nat)
    | WriteOk(c: nat)
    | WriteFail(c: nat)
    | Forget(c: nat)
    | Receive(c: nat)
    | Take(r: Response)
    | Deliver
    | Tear(id: nat)          // the stream ends inside the payload of a response
    | Stop                   // the read loop ends for any other reason
    | Finish                 // Read returns, after its own call of Close
    | Win
    | Drain
    | OpenStream(c: nat, op: seq<byte>)
    | StreamReceive(c: nat)
    | StreamForget(c: nat)   // finalize
    | StreamAbandon(c: nat)  // its user will not write any more

  function Initial(): State {
    State(0, map[], map[], Reading, Open, [], map[], {}, false, false, {})
  }

  function Live(pc: Pc): Option<nat> {
    match pc
    case Ready => None
    case Returned(_) => None
    case StreamIdle(live) => live
    case StreamReceiving(live) => live
    case _ => Some(pc.reg)
  }

  predicate IsStream(pc: Pc) {
    pc.StreamIdle? || pc.StreamReceiving?
  }

  /** Some registration in use is 2^32 or more registrations old. */
  predicate Late(s: State) {
    exists c :: c in s.calls && Live(s.calls[c].pc).Some? && s.regs >= Live(s.calls[c].pc).value + TWO_32
  }

  function SetPc(s: State, c: nat, pc: Pc): State
    requires c in s.calls
  {
    s.(calls := s.calls[c := s.calls[c].(pc := pc)])
  }

  function Enrol(s: State, c: nat): State {
    s.(pending := s.pending[s.regs % TWO_32 := Entry(c, s.regs)],
    regs := s.regs + 1,
    overrun := s.overrun || Late(s))
  }

  function ForgetId(s: State, id: nat): State {
    s.(pending := s.pending - {id})
  }

  /** The call's channel is in the table, under whatever id. */
  predicate IsPending(s: State, c: nat) {
    exists id :: id in s.pending && s.pending[id].call == c
  }

  /** A send to the call's channel that does not wait would succeed. */
  predicate Hears(call: Call) {
    if IsStream(call.pc) then call.pc.StreamReceiving? else call.chan.None?
  }

  /** Close's non-blocking send to one call. */
  function Notified(call: Call): Call {
    if !Hears(call) then call
    else if IsStream(call.pc) then call.(pc := StreamIdle(call.pc.live))
    else call.(chan := Some(FromClose))
  }

  function WithLive(pc: Pc, live: Option<nat>): Pc
    requires IsStream(pc)
  {
    if pc.StreamIdle? then StreamIdle(live) else StreamReceiving(live)
  }

  predicate Enabled(s: State, step: Step) {
    match step
    case NewCall(c, _, _) => c !in s.calls
    case Register(c) => c in s.calls && s.calls[c].pc.Ready?
    case WriteOk(c) => c in s.calls && s.calls[c].pc.Registered? && !s.closing.Drained?
    case WriteFail(c) => c in s.calls && s.calls[c].pc.Registered?
    case Forget(c) => c in s.calls && s.calls[c].pc.WriteFailed?
    case Receive(c) => c in s.calls && s.calls[c].pc.Waiting? && s.calls[c].chan.Some?
    case Take(_) => s.reader.Reading?
    case Deliver =>
      && s.reader.InTransit? && s.reader.e.call in s.calls
      && Hears(s.calls[s.reader.e.call])
    case Tear(_) => s.reader.Reading?
    case Stop => s.reader.Reading?
    case Finish => s.reader.Stopped? && !s.closing.Open?
    case Win => s.closing.Open?
    case Drain => s.closing.Won?
    case OpenStream(c, _) => c !in s.calls
    case StreamReceive(c) => c in s.calls && s.calls[c].pc.StreamIdle?
    case StreamForget(c) => c in s.calls && IsStream(s.calls[c].pc) && s.calls[c].pc.live.Some?
    case StreamAbandon(c) => c in s.calls && IsStream(s.calls[c].pc) && s.calls[c].pc.live.Some?
  }

  /** The entry is that of a BufferRequest. */
  predicate IsForSingle(s: State, e: Entry) {
    e.call in s.calls && !IsStream(s.calls[e.call].pc)
  }

  function DoTake(s: State, r: Response): State {
    if r.id !in s.pending then s
    else
      var e := s.pending[r.id];
      var single := IsForSingle(s, e);
      s.(reader := InTransit(e, r),
      answers := if single then s.answers[e.reg := r] else s.answers,
      streamed := s.streamed || (single && r.kind.Part?),
      pending := if r.kind.Part? then s.pending else s.pending - {r.id})
  }

  function Apply(s: State, step: Step): State
    requires Enabled(s, step)
  {
    match step
    case NewCall(c, op, data) => s.(calls := s.calls[c := Call(op, data, Ready, None)])
    case Register(c) => SetPc(Enrol(s, c), c, Registered(s.regs))
    case WriteOk(c) =>
      var call := s.calls[c];
      var reg := call.pc.reg;
      SetPc(s, c, Waiting(reg)).(sent := s.sent + [Request(reg % TWO_32, call.op, call.data, reg)])
    case WriteFail(c) => SetPc(s, c, WriteFailed(s.calls[c].pc.reg))
    case Forget(c) => SetPc(ForgetId(s, s.calls[c].pc.reg % TWO_32), c, Returned(SendError))
    case Receive(c) =>
      var call, a := s.calls[c], s.calls[c].chan.value;
      var pc := if a.FromPeer? && a.r.kind.Retry? then Ready else Returned(Got(a));
      s.(calls := s.calls[c := call.(pc := pc, chan := None)])
    case Take(r) => DoTake(s, r)
    case Deliver =>
      var c := s.reader.e.call;
      var call := s.calls[c];
      var call' := if IsStream(call.pc) then call.(pc := StreamIdle(call.pc.live))
                   else call.(chan := Some(FromPeer(s.reader.r)));
      s.(reader := Reading, calls := s.calls[c := call'])
    case Tear(id) =>
      ForgetId(s, id).(reader := Stopped,
      torn := if id in s.pending && IsForSingle(s, s.pending[id]) then s.torn + {s.pending[id].reg} else s.torn)
    case Stop => s.(reader := Stopped)
    case Finish => s.(reader := Finished)
    case Win => s.(closing := Won)
    case Drain =>
      s.(closing := Drained, pending := map[],
      told := s.told + (set c | c in s.calls && IsPending(s, c) && Hears(s.calls[c])),
      calls := map c | c in s.calls :: if IsPending(s, c) then Notified(s.calls[c]) else s.calls[c])
    case OpenStream(c, op) => Enrol(s, c).(calls := s.calls[c := Call(op, [], StreamIdle(Some(s.regs)), None)])
    case StreamReceive(c) => SetPc(s, c, StreamReceiving(s.calls[c].pc.live))
    case StreamForget(c) =>
      SetPc(ForgetId(s, s.calls[c].pc.live.value % TWO_32), c, WithLive(s.calls[c].pc, None))
    case StreamAbandon(c) => SetPc(s, c, WithLive(s.calls[c].pc, None))
  }

  /** The state after the given steps, if each was possible when it was taken. */
  function Exec(s: State, steps: seq<Step>): Option<State>
    decreases |steps|
  {
    if steps == [] then Some(s)
    else if Enabled(s, steps[0]) then Exec(Apply(s, steps[0]), steps[1..])
    else None
  }

  /** A run from the beginning. */
  function After(steps: seq<Step>): Option<State> {
    Exec(Initial(), steps)
  }

  // ----- Ids ----------------------------------------------------------------------------------

  predicate InWindow(s: State, c: nat) {
    c in s.calls && Live(s.calls[c].pc).Some? ==>
      Live(s.calls[c].pc).value < s.regs <= Live(s.calls[c].pc).value + TWO_32
  }

  predicate Distinct(s: State, c: nat, d: nat) {
    c in s.calls && d in s.calls && Live(s.calls[c].pc).Some? && Live(s.calls[c].pc) == Live(s.calls[d].pc) ==>
      c == d
  }

  /** Registrations in use are distinct, already made, and at most 2^32 old. */
  predicate Fresh(s: State) {
    && (forall c :: c in s.calls ==> InWindow(s, c))
    && (forall c, d :: c in s.calls && d in s.calls ==> Distinct(s, c, d))
  }

  /** Two registrations less than 2^32 apart have different ids. */
  lemma SameIdSameReg(a: nat, b: nat)
    requires a % TWO_32 == b % TWO_32 && a - TWO_32 < b < a + TWO_32
    ensures a == b
  {
  }

  lemma SameIdSameCall(s: State, c: nat, d: nat)
    requires c in s.calls && d in s.calls && InWindow(s, c) && InWindow(s, d) && Distinct(s, c, d)
    requires Live(s.calls[c].pc).Some? && Live(s.calls[d].pc).Some?
    requires Live(s.calls[c].pc).value % TWO_32 == Live(s.calls[d].pc).value % TWO_32
    ensures c == d
  {
    SameIdSameReg(Live(s.calls[c].pc).value, Live(s.calls[d].pc).value);
  }

  // ----- No call is stranded ------------------------------------------------------------------

  /** An entry is filed under the id of its registration, which no later registration has taken over. */
  predicate FiledAt(s: State, id: nat) {
    id in s.pending ==>
      && id == s.pending[id].reg % TWO_32 && s.pending[id].call in s.calls
      && s.pending[id].reg < s.regs <= s.pending[id].reg + TWO_32
  }

  predicate Filed(s: State) {
    forall id :: id in s.pending ==> FiledAt(s, id)
  }

  predicate HasEntry(s: State, e: Entry) {
    e.reg % TWO_32 in s.pending && s.pending[e.reg % TWO_32] == e
  }

  /** A call that awaits a response, or will once its write has succeeded. */
  predicate Expects(pc: Pc) {
    pc.Registered? || pc.Waiting?
  }

  /** The four ways in which such a call is accounted for. */
  predicate Accounted(s: State, c: nat)
    requires c in s.calls && Expects(s.calls[c].pc)
  {
    var e := Entry(c, s.calls[c].pc.reg);
    || HasEntry(s, e)
    || (s.reader.InTransit? && s.reader.e == e)
    || s.calls[c].chan.Some?
    || e.reg in s.torn
  }

  /** A waiting call is accounted for, and not by the table once the socket has been closed. */
  predicate NotStranded(s: State, c: nat)
    requires c in s.calls
  {
    && (Expects(s.calls[c].pc) ==> Accounted(s, c))
    && (s.calls[c].pc.Waiting? && s.closing.Drained? ==> !HasEntry(s, Entry(c, s.calls[c].pc.reg)))
  }

  predicate AllAccounted(s: State) {
    && (forall c :: c in s.calls ==> NotStranded(s, c))
    && (s.reader.InTransit? ==> s.reader.e.call in s.calls)
  }

  predicate Inv(s: State) {
    s.overrun || (Fresh(s) && Filed(s) && AllAccounted(s))
  }

  lemma StepInWindow(s: State, step: Step, c: nat)
    requires (c in s.calls ==> InWindow(s, c)) && Enabled(s, step) && !Apply(s, step).overrun
    ensures InWindow(Apply(s, step), c)
  {
  }

  lemma StepDistinct(s: State, step: Step, c: nat, d: nat)
    requires (c in s.calls ==> InWindow(s, c)) && (d in s.calls ==> InWindow(s, d))
    requires (c in s.calls && d in s.calls ==> Distinct(s, c, d)) && Enabled(s, step)
    ensures Distinct(Apply(s, step), c, d)
  {
  }

  lemma StepFresh(s: State, step: Step)
    requires Fresh(s) && Enabled(s, step) && !Apply(s, step).overrun
    ensures Fresh(Apply(s, step))
  {
    hide Enabled, Apply, InWindow, Distinct;
    forall c {
      StepInWindow(s, step, c);
    }
    forall c, d {
      StepDistinct(s, step, c, d);
    }
  }

  lemma StepFiledAt(s: State, step: Step, id: nat)
    requires FiledAt(s, id) && Enabled(s, step)
    ensures FiledAt(Apply(s, step), id)
  {
  }

  lemma StepFiled(s: State, step: Step)
    requires Filed(s) && Enabled(s, step)
    ensures Filed(Apply(s, step))
  {
    hide Enabled, Apply, FiledAt;
    forall id | id in Apply(s, step).pending
      ensures FiledAt(Apply(s, step), id)
    {
      assert id in s.pending ==> FiledAt(s, id);
      OutIsFiled(s, id);
      StepFiledAt(s, step, id);
    }
  }

  lemma OutIsFiled(s: State, id: nat)
    requires id !in s.pending || FiledAt(s, id)
    ensures FiledAt(s, id)
  {
  }

  /** The steps of the read loop that touch a call. */
  predicate IsReading(step: Step) {
    step.Take? || step.Deliver? || step.Tear?
  }

  /** The steps that put a registration into the table. */
  predicate IsEnrolling(step: Step) {
    step.Register? || step.OpenStream?
  }

  /** The steps of a call that take its own registration out. */
  predicate IsForgetting(step: Step) {
    step.Forget? || step.StreamForget?
  }

  lemma EnrollingNotStranded(s: State, step: Step, c: nat)
    requires InWindow(s, c) && Enabled(s, step) && IsEnrolling(step) && !Apply(s, step).overrun
    requires c in s.calls && NotStranded(s, c)
    ensures NotStranded(Apply(s, step), c)
  {
    if Expects(s.calls[c].pc) && s.regs % TWO_32 == s.calls[c].pc.reg % TWO_32 {
      SameIdSameReg(s.regs, s.calls[c].pc.reg);
    }
  }

  lemma ForgettingNotStranded(s: State, step: Step, c: nat)
    requires Fresh(s) && Enabled(s, step) && IsForgetting(step)
    requires c in s.calls && NotStranded(s, c)
    ensures NotStranded(Apply(s, step), c)
  {
    if Expects(s.calls[c].pc) && Live(s.calls[step.c].pc).value % TWO_32 == s.calls[c].pc.reg % TWO_32 {
      assert InWindow(s, c) && InWindow(s, step.c) && Distinct(s, step.c, c);
      SameIdSameCall(s, step.c, c);
    }
  }

  lemma ReadingNotStranded(s: State, step: Step, c: nat)
    requires Filed(s) && Enabled(s, step) && IsReading(step)
    requires c in s.calls && NotStranded(s, c)
    ensures NotStranded(Apply(s, step), c)
  {
  }

  lemma OtherNotStranded(s: State, step: Step, c: nat)
    requires Enabled(s, step) && !IsEnrolling(step) && !IsForgetting(step) && !IsReading(step)
    requires c in s.calls && NotStranded(s, c)
    ensures NotStranded(Apply(s, step), c)
  {
    if Expects(s.calls[c].pc) && step.Drain? && HasEntry(s, Entry(c, s.calls[c].pc.reg)) {
      assert IsPending(s, c);
    }
  }

  lemma StepNotStranded(s: State, step: Step, c: nat)
    requires Fresh(s) && Filed(s) && Enabled(s, step) && !Apply(s, step).overrun
    requires c in s.calls && NotStranded(s, c)
    ensures c in Apply(s, step).calls && NotStranded(Apply(s, step), c)
  {
    CallsStay(s, step, c);
    hide Apply, Enabled, Filed, NotStranded;
    if IsEnrolling(step) {
      EnrollingNotStranded(s, step, c);
    } else if IsForgetting(step) {
      ForgettingNotStranded(s, step, c);
    } else if IsReading(step) {
      ReadingNotStranded(s, step, c);
    } else {
      OtherNotStranded(s, step, c);
    }
  }

  lemma CallsStay(s: State, step: Step, c: nat)
    requires c in s.calls && Enabled(s, step)
    ensures c in Apply(s, step).calls
  {
  }

  lemma StepAccounted(s: State, step: Step)
    requires Fresh(s) && Filed(s) && AllAccounted(s) && Enabled(s, step) && !Apply(s, step).overrun
    ensures AllAccounted(Apply(s, step))
  {
    var s' := Apply(s, step);
    forall c | c in s'.calls
      ensures NotStranded(s', c)
    {
      if c in s.calls {
        StepNotStranded(s, step, c);
      }
    }
    hide NotStranded, Fresh;
  }

  lemma StepInv(s: State, step: Step)
    requires Inv(s) && Enabled(s, step)
    ensures Inv(Apply(s, step))
  {
    if !Apply(s, step).overrun {
      StepFresh(s, step);
      StepFiled(s, step);
      StepAccounted(s, step);
    }
    hide Fresh, Filed, AllAccounted;
  }

  // ----- Every registration is answered at most once ------------------------------------------

  /** The registration of the table entry of a BufferRequest is its current one. */
  predicate EntryLive(s: State, id: nat) {
    id in s.pending && s.pending[id].call in s.calls && !IsStream(s.calls[s.pending[id].call].pc) ==>
      Live(s.calls[s.pending[id].call].pc) == Some(s.pending[id].reg)
  }

  predicate Filing(s: State, c: nat)
    requires c in s.calls
  {
    Live(s.calls[c].pc).Some? && HasEntry(s, Entry(c, Live(s.calls[c].pc).value))
  }

  predicate Carrying(s: State, c: nat) {
    s.reader.InTransit? && s.reader.e.call == c
  }

  /** For a BufferRequest: table entry, delivery in transit and value in the channel exclude each other. */
  predicate NotTwice(s: State, c: nat)
    requires c in s.calls
  {
    var call := s.calls[c];
    var live := Live(call.pc);
    !IsStream(call.pc) ==>
      && !(Filing(s, c) && Carrying(s, c)) && !(Filing(s, c) && call.chan.Some?)
      && !(Carrying(s, c) && call.chan.Some?)
      && (call.pc.Ready? ==> call.chan.None? && !Carrying(s, c))
      && (live.Some? && Carrying(s, c) ==> s.reader.e.reg == live.value)
      && (live.Some? && live.value in s.torn ==> !Filing(s, c) && !Carrying(s, c) && call.chan.None?)
  }

  /** What reaches the channel is the response that was taken for the registration, taken once. */
  predicate RightAnswer(s: State, c: nat)
    requires c in s.calls
  {
    var call := s.calls[c];
    var live := Live(call.pc);
    !IsStream(call.pc) ==>
      && (Filing(s, c) ==> live.value !in s.answers)
      && (Carrying(s, c) ==> s.reader.e.reg in s.answers && s.answers[s.reader.e.reg] == s.reader.r)
      && (live.Some? && call.chan.Some? && call.chan.value.FromPeer? ==>
           live.value in s.answers && s.answers[live.value] == call.chan.value.r)
  }

  predicate Dated(s: State) {
    && (forall reg :: reg in s.answers ==> reg < s.regs)
    && (forall reg :: reg in s.torn ==> reg < s.regs)
    && (s.reader.InTransit? ==> s.reader.e.reg < s.regs && s.reader.e.call in s.calls)
  }

  predicate Once(s: State) {
    && Dated(s)
    && (forall id :: id in s.pending ==> EntryLive(s, id))
    && (forall c :: c in s.calls ==> NotTwice(s, c) && RightAnswer(s, c))
  }

  predicate OnceInv(s: State) {
    s.overrun || s.streamed || Once(s)
  }

  lemma StepDated(s: State, step: Step)
    requires Dated(s) && Filed(s) && Enabled(s, step)
    ensures Dated(Apply(s, step))
  {
  }

  lemma ReadingEntryLive(s: State, step: Step, id: nat)
    requires Enabled(s, step) && IsReading(step) && EntryLive(s, id)
    requires forall c :: c in s.calls ==> NotTwice(s, c)
    ensures EntryLive(Apply(s, step), id)
  {
  }

  lemma OtherEntryLive(s: State, step: Step, id: nat)
    requires Fresh(s) && Filed(s) && Enabled(s, step) && !IsReading(step) && !Apply(s, step).overrun
    requires EntryLive(s, id) && forall c :: c in s.calls ==> NotTwice(s, c)
    ensures EntryLive(Apply(s, step), id)
  {
  }

  lemma StepEntryLive(s: State, step: Step, id: nat)
    requires Fresh(s) && Filed(s) && Enabled(s, step) && !Apply(s, step).overrun
    requires forall k :: k in s.pending ==> EntryLive(s, k)
    requires forall c :: c in s.calls ==> NotTwice(s, c)
    ensures EntryLive(Apply(s, step), id)
  {
    hide Apply, Enabled, Fresh, Filed, NotTwice;
    assert EntryLive(s, id);
    if IsReading(step) {
      ReadingEntryLive(s, step, id);
    } else {
      OtherEntryLive(s, step, id);
    }
  }

  /** What the two lemmas about one call need to know about the whole state. */
  predicate Sound(s: State) {
    && Fresh(s) && Filed(s) && Dated(s)
    && forall k :: k in s.pending ==> EntryLive(s, k)
  }

  lemma ReadingNotTwice(s: State, step: Step, c: nat)
    requires Sound(s) && Enabled(s, step) && !Apply(s, step).streamed && IsReading(step)
    requires c in s.calls && NotTwice(s, c)
    ensures NotTwice(Apply(s, step), c)
  {
  }

  lemma EnrollingNotTwice(s: State, step: Step, c: nat)
    requires Sound(s) && Enabled(s, step) && IsEnrolling(step)
    requires c in s.calls && NotTwice(s, c)
    ensures NotTwice(Apply(s, step), c)
  {
    hide InWindow, Distinct;
  }

  lemma CallNotTwice(s: State, step: Step, c: nat)
    requires Sound(s) && Enabled(s, step) && !IsReading(step) && !IsEnrolling(step)
    requires c in s.calls && NotTwice(s, c)
    ensures NotTwice(Apply(s, step), c)
  {
    hide InWindow, Distinct;
  }

  lemma OtherNotTwice(s: State, step: Step, c: nat)
    requires Sound(s) && Enabled(s, step) && !IsReading(step)
    requires c in s.calls && NotTwice(s, c)
    ensures NotTwice(Apply(s, step), c)
  {
    hide Sound, Enabled, Apply, NotTwice;
    if IsEnrolling(step) {
      EnrollingNotTwice(s, step, c);
    } else {
      CallNotTwice(s, step, c);
    }
  }

  lemma ReadingRightAnswer(s: State, step: Step, c: nat)
    requires Sound(s) && Enabled(s, step) && !Apply(s, step).streamed && IsReading(step)
    requires c in s.calls && NotTwice(s, c) && RightAnswer(s, c)
    ensures RightAnswer(Apply(s, step), c)
  {
  }

  lemma OtherRightAnswer(s: State, step: Step, c: nat)
    requires Sound(s) && Enabled(s, step) && !IsReading(step)
    requires c in s.calls && NotTwice(s, c) && RightAnswer(s, c)
    ensures RightAnswer(Apply(s, step), c)
  {
    hide InWindow, Distinct;
  }

  lemma NewCallOnce(s: State, step: Step, c: nat)
    requires Sound(s) && Enabled(s, step) && c !in s.calls && c in Apply(s, step).calls
    ensures NotTwice(Apply(s, step), c) && RightAnswer(Apply(s, step), c)
  {
  }

  lemma StepOnce(s: State, step: Step)
    requires Fresh(s) && Filed(s) && Once(s) && Enabled(s, step)
    requires !Apply(s, step).overrun && !Apply(s, step).streamed
    ensures Once(Apply(s, step))
  {
    hide Apply, Enabled, Fresh, Filed, Dated, EntryLive, NotTwice, RightAnswer;
    var s' := Apply(s, step);
    StepDated(s, step);
    forall id | id in s'.pending
      ensures EntryLive(s', id)
    {
      StepEntryLive(s, step, id);
    }
    forall c | c in s'.calls
      ensures NotTwice(s', c) && RightAnswer(s', c)
    {
      if c !in s.calls {
        NewCallOnce(s, step, c);
      } else if IsReading(step) {
        ReadingNotTwice(s, step, c);
        ReadingRightAnswer(s, step, c);
      } else {
        OtherNotTwice(s, step, c);
        OtherRightAnswer(s, step, c);
      }
    }
  }

  lemma StepOverrun(s: State, step: Step)
    requires (s.overrun ==> s.regs > TWO_32) && Enabled(s, step)
    ensures Apply(s, step).overrun ==> Apply(s, step).regs > TWO_32
  {
  }

  /** No id wraps around before 2^32 of them have been issued. */
  lemma {:induction false} OverrunNeedsManyIds(s: State, steps: seq<Step>)
    requires (s.overrun ==> s.regs > TWO_32) && Exec(s, steps).Some?
    ensures Exec(s, steps).value.overrun ==> Exec(s, steps).value.regs > TWO_32
    decreases |steps|
  {
    hide Apply, Enabled;
    if steps != [] {
      StepOverrun(s, steps[0]);
      OverrunNeedsManyIds(Apply(s, steps[0]), steps[1..]);
    }
  }

  lemma OverrunStays(s: State, step: Step)
    requires Enabled(s, step) && s.overrun
    ensures Apply(s, step).overrun
  {
  }

  lemma StepKeepsFlags(s: State, step: Step)
    requires Enabled(s, step) && (s.overrun || s.streamed)
    ensures Apply(s, step).overrun || Apply(s, step).streamed
  {
  }

  lemma InitialInv()
    ensures Inv(Initial()) && OnceInv(Initial())
  {
  }

  lemma {:induction false} ExecInv(s: State, steps: seq<Step>)
    requires Inv(s) && OnceInv(s) && Exec(s, steps).Some?
    ensures Inv(Exec(s, steps).value) && OnceInv(Exec(s, steps).value)
    decreases |steps|
  {
    hide Fresh, Filed, AllAccounted, Once, Apply, Enabled;
    if steps != [] {
      var step := steps[0];
      StepInv(s, step);
      if s.overrun || s.streamed {
        StepKeepsFlags(s, step);
      } else if !Apply(s, step).overrun && !Apply(s, step).streamed {
        StepOnce(s, step);
      }
      ExecInv(Apply(s, step), steps[1..]);
    }
  }

  lemma ReachableInv(steps: seq<Step>)
    requires After(steps).Some?
    ensures Inv(After(steps).value) && OnceInv(After(steps).value)
  {
    InitialInv();
    ExecInv(Initial(), steps);
  }

  // ----- The theorems -------------------------------------------------------------------------

  /** In every run ids of registrations in use are distinct: the window of live ids never wraps onto itself. */
  lemma LiveIdsDistinct(steps: seq<Step>, c: nat, d: nat)
    requires After(steps).Some?
    requires var s := After(steps).value; !s.overrun && c in s.calls && d in s.calls
    requires var s := After(steps).value; Live(s.calls[c].pc).Some? && Live(s.calls[d].pc).Some?
    requires var s := After(steps).value;
             Live(s.calls[c].pc).value % TWO_32 == Live(s.calls[d].pc).value % TWO_32
    ensures c == d
  {
    ReachableInv(steps);
    var s := After(steps).value;
    assert InWindow(s, c) && InWindow(s, d) && Distinct(s, c, d);
    SameIdSameCall(s, c, d);
  }

  /** The read loop can always hand over a response to a BufferRequest: its send never blocks. */
  lemma DeliveryNeverBlocks(steps: seq<Step>)
    requires After(steps).Some?
    ensures var s := After(steps).value;
            !s.overrun && !s.streamed && s.reader.InTransit? ==>
              && s.reader.e.call in s.calls
              && (!IsStream(s.calls[s.reader.e.call].pc) ==> Enabled(s, Deliver))
  {
    ReachableInv(steps);
  }

  /** In every reachable state each waiting BufferRequest is accounted for in exactly one way. */
  lemma AccountedOnce(steps: seq<Step>, c: nat)
    requires After(steps).Some?
    requires var s := After(steps).value; !s.overrun && c in s.calls && s.calls[c].pc.Waiting?
    ensures var s := After(steps).value;
            && Accounted(s, c)
            && (!s.streamed ==>
                 (if Filing(s, c) then 1 else 0) + (if Carrying(s, c) then 1 else 0)
                 + (if s.calls[c].chan.Some? then 1 else 0) + (if s.calls[c].pc.reg in s.torn then 1 else 0) == 1)
  {
    ReachableInv(steps);
    var s := After(steps).value;
    assert NotStranded(s, c);
    assert !s.streamed ==> NotTwice(s, c);
  }

  /**
   No stuck request, and exactly when there is one. Once the socket has been closed, a
   BufferRequest that still waits has its answer in its channel or on its way there, unless the
   stream ended inside the payload of its response: then, and only then, nothing is left that
   could wake it up.
   */
  lemma NoStuckRequest(steps: seq<Step>, c: nat)
    requires After(steps).Some?
    requires var s := After(steps).value; !s.overrun && !s.streamed && s.closing.Drained?
    requires var s := After(steps).value; c in s.calls && s.calls[c].pc.Waiting?
    ensures var s := After(steps).value; Stranded(s, c) <==> s.calls[c].pc.reg in s.torn
  {
    ReachableInv(steps);
    var s := After(steps).value;
    assert NotStranded(s, c) && NotTwice(s, c);
    forall id | id in s.pending
      ensures s.pending[id].call != c
    {
      assert EntryLive(s, id);
    }
  }

  /** A waiting call that nothing in the socket refers to any more. */
  predicate Stranded(s: State, c: nat) {
    && c in s.calls && s.calls[c].pc.Waiting? && s.calls[c].chan.None?
    && !IsPending(s, c) && !Carrying(s, c)
  }

  lemma StepStranded(s: State, step: Step, c: nat)
    requires Stranded(s, c) && Enabled(s, step)
    ensures Stranded(Apply(s, step), c)
  {
    var s' := Apply(s, step);
    assert forall id :: id in s'.pending && s'.pending[id].call == c ==> id in s.pending && s.pending[id].call == c;
  }

  /** Whatever happens afterwards, a stranded call stays so. */
  lemma {:induction false} StrandedForever(s: State, steps: seq<Step>, c: nat)
    requires Stranded(s, c) && Exec(s, steps).Some?
    ensures Stranded(Exec(s, steps).value, c)
    decreases |steps|
  {
    hide Apply, Enabled, Stranded;
    if steps != [] {
      StepStranded(s, steps[0], c);
      StrandedForever(Apply(s, steps[0]), steps[1..], c);
    }
  }

  lemma {:induction false} ExecAppend(s: State, steps: seq<Step>, step: Step)
    requires Exec(s, steps).Some? && Enabled(Exec(s, steps).value, step)
    ensures Exec(s, steps + [step]) == Some(Apply(Exec(s, steps).value, step))
    decreases |steps|
  {
    hide Enabled, Apply;
    if steps == [] {
      assert Exec(Apply(s, step), []) == Some(Apply(s, step));
      assert (steps + [step])[1..] == [];
    } else {
      assert (steps + [step])[1..] == steps[1..] + [step];
      ExecAppend(Apply(s, steps[0]), steps[1..], step);
    }
  }

  /** Takes one more step of a run. */
  lemma Then(steps: seq<Step>, s: State, step: Step) returns (steps': seq<Step>, s': State)
    requires After(steps) == Some(s) && Enabled(s, step)
    ensures After(steps') == Some(s') && s' == Apply(s, step)
  {
    ExecAppend(Initial(), steps, step);
    steps', s' := steps + [step], Apply(s, step);
  }

  /** A BufferRequest that has been written and waits. */
  lemma SendOne(op: seq<byte>, data: seq<byte>) returns (steps: seq<Step>, s: State)
    ensures After(steps) == Some(s)
    ensures s == State(1, map[0 := Entry(7, 0)], map[7 := Call(op, data, Waiting(0), None)],
                       Reading, Open, [Request(0, op, data, 0)], map[], {}, false, false, {})
  {
    steps, s := [], Initial();
    steps, s := Then(steps, s, NewCall(7, op, data));
    steps, s := Then(steps, s, Register(7));
    steps, s := Then(steps, s, WriteOk(7));
  }

  /** A connection that dies inside a response's payload strands the call the response was for. */
  lemma TornResponseStrands(op: seq<byte>, data: seq<byte>) returns (steps: seq<Step>, s: State)
    ensures After(steps) == Some(s) && !s.overrun && !s.streamed
    ensures s.reader.Finished? && s.closing.Drained? && Stranded(s, 7)
  {
    steps, s := SendOne(op, data);
    steps, s := Then(steps, s, Tear(0));
    steps, s := Then(steps, s, Win);
    steps, s := Then(steps, s, Drain);
    steps, s := Then(steps, s, Finish);
  }

  /** The read loop waits for room in the channel of a call that has returned. */
  predicate Blocked(s: State) {
    && s.reader.InTransit? && s.reader.e.call in s.calls
    && s.calls[s.reader.e.call].chan.Some? && s.calls[s.reader.e.call].pc.Returned?
  }

  lemma StepBlocked(s: State, step: Step)
    requires Blocked(s) && Enabled(s, step)
    ensures Blocked(Apply(s, step))
  {
  }

  /** Whatever happens afterwards, the read loop stays blocked. */
  lemma {:induction false} BlockedForever(s: State, steps: seq<Step>)
    requires Blocked(s) && Exec(s, steps).Some?
    ensures Blocked(Exec(s, steps).value)
    decreases |steps|
  {
    hide Apply, Enabled, Blocked;
    if steps != [] {
      StepBlocked(s, steps[0]);
      BlockedForever(Apply(s, steps[0]), steps[1..]);
    }
  }

  /** Streaming replies to a BufferRequest are outside the protocol, and three of them block the read loop for good. */
  lemma StreamingRepliesBlock(op: seq<byte>, data: seq<byte>) returns (steps: seq<Step>, s: State)
    ensures After(steps) == Some(s) && !s.overrun && s.streamed && Blocked(s)
  {
    var r := Response(Part, 0, data);
    steps, s := SendOne(op, data);
    steps, s := Then(steps, s, Take(r));
    steps, s := Then(steps, s, Deliver);
    steps, s := Then(steps, s, Receive(7));
    steps, s := Then(steps, s, Take(r));
    steps, s := Then(steps, s, Deliver);
    steps, s := Then(steps, s, Take(r));
  }

  /** The user of a StreamRequest receives on a channel that nobody will send on. */
  predicate Deaf(s: State, c: nat) {
    && c in s.calls && s.calls[c].pc.StreamReceiving?
    && s.reader.Finished? && !IsPending(s, c)
  }

  lemma StepDeaf(s: State, step: Step, c: nat)
    requires Deaf(s, c) && Enabled(s, step)
    ensures Deaf(Apply(s, step), c)
  {
    var s' := Apply(s, step);
    assert forall id :: id in s'.pending && s'.pending[id].call == c ==> id in s.pending && s.pending[id].call == c;
  }

  /** Whatever happens afterwards, nobody sends to it. */
  lemma {:induction false} DeafForever(s: State, steps: seq<Step>, c: nat)
    requires Deaf(s, c) && Exec(s, steps).Some?
    ensures Deaf(Exec(s, steps).value, c)
    decreases |steps|
  {
    hide Apply, Enabled, Deaf;
    if steps != [] {
      StepDeaf(s, steps[0], c);
      DeafForever(Apply(s, steps[0]), steps[1..], c);
    }
  }

  /** Close does not wait for the receiver of a StreamRequest: one that is busy at that moment never learns of it. */
  lemma StreamMissesClose(op: seq<byte>) returns (steps: seq<Step>, s: State)
    ensures After(steps) == Some(s) && !s.overrun && s.torn == {} && Deaf(s, 7)
  {
    steps, s := [], Initial();
    steps, s := Then(steps, s, OpenStream(7, op));
    steps, s := Then(steps, s, Stop);
    steps, s := Then(steps, s, Win);
    steps, s := Then(steps, s, Drain);
    steps, s := Then(steps, s, Finish);
    steps, s := Then(steps, s, StreamReceive(7));
  }

  // ----- Who learns of the close --------------------------------------------------------------

  /** A StreamRequest that is not in the table of a socket that has been closed. */
  predicate LeftOut(s: State, c: nat) {
    s.closing.Drained? && c in s.calls && IsStream(s.calls[c].pc) && !IsPending(s, c)
  }

  lemma StepAfterDrain(s: State, step: Step, c: nat)
    requires s.closing.Drained? && Enabled(s, step)
    ensures Apply(s, step).closing.Drained? && Apply(s, step).told == s.told
    ensures LeftOut(s, c) ==> LeftOut(Apply(s, step), c)
  {
    var s' := Apply(s, step);
    if LeftOut(s, c) {
      assert forall id :: id in s'.pending && s'.pending[id].call == c ==> id in s.pending && s.pending[id].call == c;
    }
  }

  lemma {:induction false} ExecAfterDrain(s: State, steps: seq<Step>, c: nat)
    requires s.closing.Drained? && Exec(s, steps).Some?
    ensures Exec(s, steps).value.told == s.told
    ensures LeftOut(s, c) ==> LeftOut(Exec(s, steps).value, c)
    decreases |steps|
  {
    hide Enabled, Apply, LeftOut;
    if steps != [] {
      StepAfterDrain(s, steps[0], c);
      ExecAfterDrain(Apply(s, steps[0]), steps[1..], c);
    }
  }

  lemma StepBeforeDrain(s: State, step: Step)
    requires !s.closing.Drained? && Enabled(s, step) && s.told == {} && !step.Drain?
    ensures Apply(s, step).told == {} && !Apply(s, step).closing.Drained?
  {
  }

  lemma {:induction false} ExecBeforeDrain(s: State, steps: seq<Step>)
    requires (s.closing.Drained? || s.told == {}) && Exec(s, steps).Some?
    ensures Exec(s, steps).value.closing.Drained? || Exec(s, steps).value.told == {}
    decreases |steps|
  {
    hide Enabled, Apply;
    if steps != [] {
      if s.closing.Drained? {
        StepAfterDrain(s, steps[0], 0);
      } else if steps[0].Drain? {
        DrainCloses(s);
      } else {
        StepBeforeDrain(s, steps[0]);
      }
      ExecBeforeDrain(Apply(s, steps[0]), steps[1..]);
    }
  }

  lemma DrainCloses(s: State)
    requires Enabled(s, Drain)
    ensures var s' := Apply(s, Drain); s'.closing.Drained? && s'.pending == map[]
    ensures forall c :: c in s.calls ==>
              c in Apply(s, Drain).calls && IsStream(Apply(s, Drain).calls[c].pc) == IsStream(s.calls[c].pc)
    ensures forall c :: c in Apply(s, Drain).told <==>
              c in s.told || (c in s.calls && IsPending(s, c) && Hears(s.calls[c]))
  {
  }

  /**
   Who learns of the close, over whole runs: of the calls in the table when Close goes through it,
   those that a non-blocking send reaches at that moment, and never anyone else. A StreamRequest
   that is not receiving then is not told later either: once the read loop has finished, its user
   receives in vain for good.
   */
  lemma CloseReachesReceivers(before: seq<Step>, after: seq<Step>, c: nat)
    requires After(before).Some? && Enabled(After(before).value, Drain)
    requires Exec(Apply(After(before).value, Drain), after).Some?
    ensures var s, r := After(before).value, Exec(Apply(After(before).value, Drain), after).value;
            && (c in r.told <==> c in s.calls && IsPending(s, c) && Hears(s.calls[c]))
            && (c in s.calls && IsStream(s.calls[c].pc) && r.reader.Finished? ==>
                 c in r.calls && (Deaf(r, c) <==> r.calls[c].pc.StreamReceiving?))
  {
    hide Apply, Enabled;
    var s := After(before).value;
    ExecBeforeDrain(Initial(), before);
    assert !s.closing.Drained? by {
      WonOnce(s);
    }
    DrainCloses(s);
    var s' := Apply(s, Drain);
    ExecAfterDrain(s', after, c);
    assert c in s.calls && IsStream(s.calls[c].pc) ==> LeftOut(s', c);
  }

  lemma WonOnce(s: State)
    requires Enabled(s, Drain)
    ensures !s.closing.Drained?
  {
  }

  // ----- What follows an error ----------------------------------------------------------------

  /** None of the registrations from `from` on, up to the present, has this id. */
  predicate NotReissued(from: nat, s: State, id: nat) {
    forall r :: from <= r < s.regs ==> r % TWO_32 != id
  }

  lemma StepStaysOut(s: State, step: Step, id: nat)
    requires Enabled(s, step) && id !in s.pending
    requires id in Apply(s, step).pending
    ensures Apply(s, step).regs == s.regs + 1 && s.regs % TWO_32 == id
  {
  }

  lemma StepRegs(s: State, step: Step)
    requires Enabled(s, step)
    ensures s.regs <= Apply(s, step).regs
  {
  }

  lemma {:induction false} ExecRegs(s: State, steps: seq<Step>)
    requires Exec(s, steps).Some?
    ensures s.regs <= Exec(s, steps).value.regs
    decreases |steps|
  {
    hide Enabled, Apply;
    if steps != [] {
      StepRegs(s, steps[0]);
      ExecRegs(Apply(s, steps[0]), steps[1..]);
    }
  }

  lemma {:induction false} StaysOut(s: State, steps: seq<Step>, id: nat)
    requires id !in s.pending && Exec(s, steps).Some? && NotReissued(s.regs, Exec(s, steps).value, id)
    ensures id !in Exec(s, steps).value.pending
    decreases |steps|
  {
    hide Enabled, Apply;
    if steps != [] {
      var s' := Apply(s, steps[0]);
      StepRegs(s, steps[0]);
      ExecRegs(s', steps[1..]);
      if id in s'.pending {
        StepStaysOut(s, steps[0], id);
        assert false;
      }
      StaysOut(s', steps[1..], id);
    }
  }

  lemma ErrorTakesOut(s: State, error: Response)
    requires Enabled(s, Take(error)) && error.kind.Failure?
    ensures error.id !in Apply(s, Take(error)).pending && Apply(s, Take(error)).regs == s.regs
  {
  }

  /** A response whose id is not in the table has no effect. */
  lemma UnknownIsDropped(s: State, r: Response)
    requires Enabled(s, Take(r)) && r.id !in s.pending
    ensures Apply(s, Take(r)) == s
  {
  }

  /**
   A requestor that has been sent an error takes no notice of the empty 'S' that follows it,
   whatever else happens on the socket in between, unless the id has been issued again.
   */
  lemma TrailingPartIsDropped(s: State, error: Response, steps: seq<Step>, eos: Response)
    requires Enabled(s, Take(error)) && error.kind.Failure? && eos.id == error.id
    requires Exec(Apply(s, Take(error)), steps).Some?
    requires var told := Exec(Apply(s, Take(error)), steps).value;
             Enabled(told, Take(eos)) && NotReissued(s.regs, told, error.id)
    ensures var told := Exec(Apply(s, Take(error)), steps).value; Apply(told, Take(eos)) == told
  {
    ErrorTakesOut(s, error);
    hide Apply, Enabled;
    StaysOut(Apply(s, Take(error)), steps, error.id);
    UnknownIsDropped(Exec(Apply(s, Take(error)), steps).value, eos);
  }
}
