/**
 Two sockets joined by two first-in-first-out streams: the requestor writes its requests on one
 and takes replies off the other, the responder the reverse (sock.go:185-195, 399-445, 555-579).
 What has been written and not yet read is in transit; nothing in a step depends on more of a
 message than its id, type and payload.
 */
module Peers {
  import opened Bytes
  import A = Requestor
  import B = Responder

  datatype State = State(
    a: A.State,
    b: B.State,
    taken: nat,  // replies the requestor has read
    late: bool)  // history: an id was issued 2^32 registrations after one still in transit

  datatype Step =
    | Local(sa: A.Step)      // a step of the requestor that reads nothing
    | Remote(sb: B.Step)     // a step of the responder that reads nothing
    | RequestArrives
    | ReplyArrives
    | ReplyTorn              // the stream ends inside the payload of the next reply

  function Initial(limit: nat): State {
    State(A.Initial(), B.Initial(limit, 0), 0, false)
  }

  /** Request i has not come back: no reply to it has been read. */
  predicate InTransit(s: State, i: nat) {
    i < |s.a.sent| && forall j :: 0 <= j < s.taken && j < |s.b.out| ==> s.b.out[j].k != i
  }

  predicate Overdue(s: State) {
    exists i :: 0 <= i < |s.a.sent| && InTransit(s, i) && s.a.regs >= s.a.sent[i].reg + TWO_32
  }

  predicate Enabled(s: State, step: Step) {
    match step
    case Local(sa) => !sa.Take? && !sa.Tear? && A.Enabled(s.a, sa)
    case Remote(sb) => !sb.Accept? && B.Enabled(s.b, sb)
    case RequestArrives =>
      |s.b.received| < |s.a.sent| && B.Enabled(s.b, B.Accept(s.a.sent[|s.b.received|], false))
    case ReplyArrives => s.taken < |s.b.out| && A.Enabled(s.a, A.Take(s.b.out[s.taken].r))
    case ReplyTorn => s.taken < |s.b.out| && A.Enabled(s.a, A.Tear(s.b.out[s.taken].r.id))
  }

  function Apply(s: State, step: Step): State
    requires B.Numbered(s.b) && Enabled(s, step)
  {
    match step
    case Local(sa) =>
      s.(a := A.Apply(s.a, sa), late := s.late || ((sa.Register? || sa.OpenStream?) && Overdue(s)))
    case Remote(sb) => s.(b := B.Apply(s.b, sb))
    case RequestArrives => s.(b := B.Apply(s.b, B.Accept(s.a.sent[|s.b.received|], false)))
    case ReplyArrives => s.(a := A.Apply(s.a, A.Take(s.b.out[s.taken].r)), taken := s.taken + 1)
    case ReplyTorn => s.(a := A.Apply(s.a, A.Tear(s.b.out[s.taken].r.id)))
  }

  lemma StepNumbered(s: State, step: Step)
    requires B.Numbered(s.b) && Enabled(s, step)
    ensures B.Numbered(Apply(s, step).b)
  {
    match step
    case Remote(sb) => B.StepNumbered(s.b, sb);
    case RequestArrives => B.StepNumbered(s.b, B.Accept(s.a.sent[|s.b.received|], false));
    case _ =>
  }

  function Exec(s: State, steps: seq<Step>): Option<State>
    requires B.Numbered(s.b)
    decreases |steps|
  {
    if steps == [] then Some(s)
    else if Enabled(s, steps[0]) then
      StepNumbered(s, steps[0]);
      Exec(Apply(s, steps[0]), steps[1..])
    else None
  }

  function After(limit: nat, steps: seq<Step>): Option<State>
    requires limit < TWO_32
  {
    Exec(Initial(limit), steps)
  }

  // ----- What the requestor has written -------------------------------------------------------

  /** Requests carry the id of their registration, and each registration is written at most once. */
  predicate SentOk(a: A.State) {
    && (forall i :: 0 <= i < |a.sent| ==> a.sent[i].id == a.sent[i].reg % TWO_32 && a.sent[i].reg < a.regs)
    && (forall i, j :: 0 <= i < |a.sent| && 0 <= j < |a.sent| && a.sent[i].reg == a.sent[j].reg ==> i == j)
  }

  /** A request of a call's current registration has been written, if at all, with the call's own op and payload. */
  predicate OwnContent(a: A.State, c: nat, i: nat)
    requires c in a.calls && i < |a.sent|
  {
    var call := a.calls[c];
    A.Live(call.pc) == Some(a.sent[i].reg) ==>
      !call.pc.Registered? && a.sent[i].op == call.op && a.sent[i].data == call.data
  }

  predicate ContentOk(a: A.State) {
    forall c, i :: c in a.calls && 0 <= i < |a.sent| ==> OwnContent(a, c, i)
  }

  lemma StepSent(a: A.State, sa: A.Step)
    requires A.Fresh(a) && A.Enabled(a, sa) && SentOk(a) && ContentOk(a)
    ensures SentOk(A.Apply(a, sa))
    ensures a.sent <= A.Apply(a, sa).sent
  {
    if sa.WriteOk? {
      forall i | 0 <= i < |a.sent|
        ensures a.sent[i].reg != a.calls[sa.c].pc.reg
      {
        assert OwnContent(a, sa.c, i);
      }
      assert A.InWindow(a, sa.c);
    }
  }

  lemma WrittenOwnContent(a: A.State, c: nat, d: nat, i: nat)
    requires A.Enabled(a, A.WriteOk(d)) && i < |a.sent| && c in a.calls && OwnContent(a, c, i)
    ensures i < |A.Apply(a, A.WriteOk(d)).sent| && c in A.Apply(a, A.WriteOk(d)).calls
    ensures OwnContent(A.Apply(a, A.WriteOk(d)), c, i)
  {
  }

  lemma OtherOwnContent(a: A.State, sa: A.Step, c: nat, i: nat)
    requires A.Enabled(a, sa) && !sa.WriteOk? && i < |a.sent| && a.sent[i].reg < a.regs
    requires c in a.calls ==> OwnContent(a, c, i)
    requires c in A.Apply(a, sa).calls && A.Apply(a, sa).sent == a.sent
    ensures OwnContent(A.Apply(a, sa), c, i)
  {
  }

  lemma NewOwnContent(a: A.State, c: nat, d: nat)
    requires A.Enabled(a, A.WriteOk(d)) && c in a.calls && A.Distinct(a, c, d)
    ensures OwnContent(A.Apply(a, A.WriteOk(d)), c, |a.sent|)
  {
  }

  lemma StepOwnContent(a: A.State, sa: A.Step, c: nat, i: nat)
    requires A.Fresh(a) && A.Enabled(a, sa) && SentOk(a) && ContentOk(a)
    requires c in A.Apply(a, sa).calls && i < |A.Apply(a, sa).sent|
    ensures OwnContent(A.Apply(a, sa), c, i)
  {
    StepShared(a, sa);
    hide A.Apply, A.Enabled;
    if i < |a.sent| {
      if sa.WriteOk? {
        WriteKeepsCalls(a, sa);
        WrittenOwnContent(a, c, sa.c, i);
      } else {
        OtherOwnContent(a, sa, c, i);
      }
    } else {
      WriteKeepsCalls(a, sa);
      NewOwnContent(a, c, sa.c);
    }
  }

  lemma WriteKeepsCalls(a: A.State, sa: A.Step)
    requires A.Enabled(a, sa) && sa.WriteOk?
    ensures sa.c in a.calls && A.Apply(a, sa).calls.Keys == a.calls.Keys
  {
  }

  // ----- The invariant ------------------------------------------------------------------------

  predicate InTime(s: State, i: nat)
    requires i < |s.a.sent|
  {
    InTransit(s, i) ==> s.a.regs <= s.a.sent[i].reg + TWO_32
  }

  /** The response r was written by the peer as its reply to the request of this registration. */
  predicate RepliesTo(s: State, reg: nat, r: A.Response) {
    exists j :: 0 <= j < |s.b.out| && s.b.out[j].r == r && s.b.out[j].k < |s.a.sent| &&
                s.a.sent[s.b.out[j].k].reg == reg
  }

  predicate SoundA(a: A.State) {
    && A.Fresh(a) && A.Filed(a) && A.AllAccounted(a) && A.Once(a) && !a.streamed
    && SentOk(a) && ContentOk(a)
  }

  predicate Sound(s: State) {
    && SoundA(s.a) && !s.a.streamed
    && B.Numbered(s.b) && B.Inv(s.b) && true !in s.b.isStream && s.b.received <= s.a.sent
    && s.taken <= |s.b.out|
    && (forall i :: 0 <= i < |s.a.sent| ==> InTime(s, i))
    && (forall reg :: reg in s.a.answers ==> RepliesTo(s, reg, s.a.answers[reg]))
  }

  predicate Inv(s: State) {
    B.Numbered(s.b) && (s.late || s.a.overrun || Sound(s))
  }

  /** The reply that arrives finds in the table, if anything, the registration of the request it answers. */
  lemma ReplyFindsItsCall(s: State)
    requires Sound(s) && Enabled(s, ReplyArrives)
    ensures var reply := s.b.out[s.taken];
            && reply.k < |s.a.sent|
            && (reply.r.id in s.a.pending ==> s.a.pending[reply.r.id].reg == s.a.sent[reply.k].reg)
  {
    var reply := s.b.out[s.taken];
    B.OnlySingleReplies(s.b);
    assert s.b.received[reply.k] == s.a.sent[reply.k];
    if reply.r.id in s.a.pending {
      var e := s.a.pending[reply.r.id];
      assert InTransit(s, reply.k);
      assert InTime(s, reply.k);
      A.SameIdSameReg(e.reg, s.a.sent[reply.k].reg);
    }
  }

  // ----- Preservation -------------------------------------------------------------------------

  lemma StepSoundA(a: A.State, sa: A.Step)
    requires SoundA(a) && A.Enabled(a, sa) && !A.Apply(a, sa).overrun && !A.Apply(a, sa).streamed
    ensures SoundA(A.Apply(a, sa)) && !A.Apply(a, sa).streamed && a.sent <= A.Apply(a, sa).sent
  {
    hide A.Fresh, A.Filed, A.AllAccounted, A.Once, A.Enabled, A.Apply, SentOk, OwnContent;
    A.StepFresh(a, sa);
    A.StepFiled(a, sa);
    A.StepAccounted(a, sa);
    A.StepOnce(a, sa);
    StepSent(a, sa);
    var a' := A.Apply(a, sa);
    forall c, i | c in a'.calls && 0 <= i < |a'.sent|
      ensures OwnContent(a', c, i)
    {
      StepOwnContent(a, sa, c, i);
    }
  }

  /** What a step of the requestor does to the parts the two sockets share. */
  lemma StepShared(a: A.State, sa: A.Step)
    requires A.Enabled(a, sa)
    ensures var a' := A.Apply(a, sa);
            && a'.regs == a.regs + (if sa.Register? || sa.OpenStream? then 1 else 0)
            && (!sa.WriteOk? ==> a'.sent == a.sent)
            && (sa.WriteOk? ==>
                 a'.sent == a.sent + [a'.sent[|a.sent|]] && a'.sent[|a.sent|].reg == a.calls[sa.c].pc.reg)
            && (!sa.Take? ==> a'.answers == a.answers && a'.streamed == a.streamed)
  {
  }

  lemma LocalInTime(s: State, sa: A.Step, i: nat)
    requires Sound(s) && Enabled(s, Local(sa)) && !Apply(s, Local(sa)).late
    requires i < |Apply(s, Local(sa)).a.sent|
    ensures InTime(Apply(s, Local(sa)), i)
  {
    hide A.Apply, A.Enabled, A.Filed, A.AllAccounted, A.Once, SentOk, ContentOk, B.Inv;
    var s' := Apply(s, Local(sa));
    StepShared(s.a, sa);
    if i < |s.a.sent| {
      assert InTime(s, i);
      assert InTransit(s', i) == InTransit(s, i);
    } else {
      WrittenInWindow(s.a, sa);
    }
  }

  lemma WrittenInWindow(a: A.State, sa: A.Step)
    requires A.Fresh(a) && A.Enabled(a, sa) && sa.WriteOk?
    ensures a.calls[sa.c].pc.reg < a.regs <= a.calls[sa.c].pc.reg + TWO_32
  {
    assert A.InWindow(a, sa.c);
  }

  lemma LocalSound(s: State, sa: A.Step)
    requires Sound(s) && Enabled(s, Local(sa))
    requires !Apply(s, Local(sa)).late && !Apply(s, Local(sa)).a.overrun
    ensures Sound(Apply(s, Local(sa)))
  {
    hide A.Apply, A.Enabled, SoundA, B.Inv, B.Numbered, InTime;
    var s' := Apply(s, Local(sa));
    StepShared(s.a, sa);
    StepSoundA(s.a, sa);
    forall i | 0 <= i < |s'.a.sent|
      ensures InTime(s', i)
    {
      LocalInTime(s, sa, i);
    }
    forall reg | reg in s'.a.answers
      ensures RepliesTo(s', reg, s'.a.answers[reg])
    {
      RepliesStay(s, s', reg, s.a.answers[reg]);
    }
  }

  lemma RepliesStay(s: State, s': State, reg: nat, r: A.Response)
    requires RepliesTo(s, reg, r) && s.a.sent <= s'.a.sent && s.b.out <= s'.b.out
    ensures RepliesTo(s', reg, r)
  {
    var j :| 0 <= j < |s.b.out| && s.b.out[j].r == r && s.b.out[j].k < |s.a.sent| &&
              s.a.sent[s.b.out[j].k].reg == reg;
    assert s'.b.out[j] == s.b.out[j];
  }

  lemma StepB(b: B.State, sb: B.Step)
    requires B.Inv(b) && B.Enabled(b, sb)
    ensures var b' := B.Apply(b, sb);
            && B.Numbered(b') && B.Inv(b') && b.out <= b'.out
            && b'.received == (if sb.Accept? then b.received + [sb.req] else b.received)
            && b'.isStream == (if sb.Accept? then b.isStream + [sb.stream] else b.isStream)
  {
    B.StepInv(b, sb);
    B.StepKeepsLimit(b, sb);
    hide B.Inv, B.Apply, B.Enabled;
  }

  lemma RemoteSound(s: State, step: Step)
    requires Sound(s) && Enabled(s, step) && (step.Remote? || step.RequestArrives?)
    ensures Sound(Apply(s, step))
  {
    hide B.Apply, B.Enabled, SoundA, B.Inv, B.Numbered;
    var s' := Apply(s, step);
    StepB(s.b, if step.Remote? then step.sb else B.Accept(s.a.sent[|s.b.received|], false));
    forall i | 0 <= i < |s'.a.sent|
      ensures InTime(s', i)
    {
      assert InTime(s, i);
      assert InTransit(s', i) == InTransit(s, i);
    }
    forall reg | reg in s'.a.answers
      ensures RepliesTo(s', reg, s'.a.answers[reg])
    {
      RepliesStay(s, s', reg, s.a.answers[reg]);
    }
  }

  lemma TakeShared(a: A.State, r: A.Response)
    requires A.Enabled(a, A.Take(r)) && !r.kind.Part?
    ensures var a' := A.Apply(a, A.Take(r));
            && a'.streamed == a.streamed && a'.overrun == a.overrun
            && (forall reg :: reg in a'.answers ==>
                 (reg in a.answers && a'.answers[reg] == a.answers[reg])
                 || (r.id in a.pending && reg == a.pending[r.id].reg && a'.answers[reg] == r))
  {
  }

  lemma ReplySound(s: State)
    requires Sound(s) && Enabled(s, ReplyArrives) && !Apply(s, ReplyArrives).a.overrun
    ensures Sound(Apply(s, ReplyArrives))
  {
    hide A.Apply, A.Enabled, SoundA, InTime;
    var s' := Apply(s, ReplyArrives);
    var reply := s.b.out[s.taken];
    B.OnlySingleReplies(s.b);
    TakeShared(s.a, reply.r);
    StepShared(s.a, A.Take(reply.r));
    StepSoundA(s.a, A.Take(reply.r));
    ReplyFindsItsCall(s);
    forall i | 0 <= i < |s'.a.sent|
      ensures InTime(s', i)
    {
      InTimeStays(s, s', i);
    }
    forall reg | reg in s'.a.answers
      ensures RepliesTo(s', reg, s'.a.answers[reg])
    {
      if reg in s.a.answers && s'.a.answers[reg] == s.a.answers[reg] {
        RepliesStay(s, s', reg, s.a.answers[reg]);
      } else {
        assert s'.b.out[s.taken] == reply;
      }
    }
  }

  lemma InTimeStays(s: State, s': State, i: nat)
    requires i < |s.a.sent| && InTime(s, i) && s'.a.sent == s.a.sent && s'.a.regs == s.a.regs
    requires s'.b == s.b && s.taken <= s'.taken
    ensures InTime(s', i)
  {
  }

  lemma TornSound(s: State)
    requires Sound(s) && Enabled(s, ReplyTorn) && !Apply(s, ReplyTorn).a.overrun
    ensures Sound(Apply(s, ReplyTorn))
  {
    hide A.Apply, A.Enabled, SoundA, B.Inv, B.Numbered, InTime;
    var s' := Apply(s, ReplyTorn);
    var sa := A.Tear(s.b.out[s.taken].r.id);
    StepShared(s.a, sa);
    StepSoundA(s.a, sa);
    forall i | 0 <= i < |s'.a.sent|
      ensures InTime(s', i)
    {
      InTimeStays(s, s', i);
    }
    forall reg | reg in s'.a.answers
      ensures RepliesTo(s', reg, s'.a.answers[reg])
    {
      RepliesStay(s, s', reg, s.a.answers[reg]);
    }
  }

  lemma StepFlags(s: State, step: Step)
    requires B.Numbered(s.b) && Enabled(s, step) && (s.late || s.a.overrun)
    ensures Apply(s, step).late || Apply(s, step).a.overrun
  {
    hide A.Apply, A.Enabled, B.Apply, B.Enabled, B.Numbered, Overdue;
    if s.a.overrun {
      match step
      case Local(sa) => A.OverrunStays(s.a, sa);
      case ReplyArrives => A.OverrunStays(s.a, A.Take(s.b.out[s.taken].r));
      case ReplyTorn => A.OverrunStays(s.a, A.Tear(s.b.out[s.taken].r.id));
      case _ =>
    }
  }

  lemma StepInv(s: State, step: Step)
    requires Inv(s) && Enabled(s, step)
    ensures Inv(Apply(s, step))
  {
    hide Apply, Enabled, Sound;
    StepNumbered(s, step);
    if s.late || s.a.overrun {
      StepFlags(s, step);
    } else if !Apply(s, step).late && !Apply(s, step).a.overrun {
      match step
      case Local(sa) => LocalSound(s, sa);
      case ReplyArrives => ReplySound(s);
      case ReplyTorn => TornSound(s);
      case _ => RemoteSound(s, step);
    }
  }

  lemma InitialInv(limit: nat)
    requires limit < TWO_32
    ensures Inv(Initial(limit))
  {
    A.InitialInv();
    B.StartInv(limit, 0);
  }

  lemma {:induction false} ExecInv(s: State, steps: seq<Step>)
    requires Inv(s) && Exec(s, steps).Some?
    ensures Inv(Exec(s, steps).value)
    decreases |steps|
  {
    hide Apply, Enabled, Sound;
    if steps != [] {
      StepInv(s, steps[0]);
      ExecInv(Apply(s, steps[0]), steps[1..]);
    }
  }

  // ----- Correlation --------------------------------------------------------------------------

  /**
   Request k as it was written asks for this operation with this payload; so does request k as the
   peer's read loop received it, whose one answer, refusal or handler's, is r; and r is what the
   peer wrote for it.
   */
  predicate AnsweredBy(s: State, k: nat, op: seq<byte>, data: seq<byte>, r: A.Response) {
    && k < |s.a.sent| && s.a.sent[k].op == op && s.a.sent[k].data == data
    && k < |s.b.received| && s.b.received[k].op == op && s.b.received[k].data == data
    && k in s.b.answers && s.b.answers[k] == B.Single(B.Content(r.kind, r.data))
    && exists j :: 0 <= j < |s.b.out| && s.b.out[j] == B.Reply(k, r)
  }

  /** A reply on the wire is the answer that the peer gave to the request it received. */
  lemma AnswerIsReply(s: State, j: nat)
    requires Sound(s) && j < |s.b.out|
    ensures var k, r := s.b.out[j].k, s.b.out[j].r;
            && k < |s.b.received| && s.b.received[k] == s.a.sent[k]
            && k in s.b.answers && s.b.answers[k] == B.Single(B.Content(r.kind, r.data))
  {
    B.OnlySingleReplies(s.b);
    hide SoundA, B.Inv;
  }

  /**
   No cross-talk. In any run of two peers in which fewer than 2^32 ids are issued while a request
   is pending or in transit, a response waiting in the channel of a call is the one reply the
   peer gave to the very request this call wrote and the peer received, with the call's own
   operation and payload.
   */
  lemma ResponseBelongsToCall(limit: nat, steps: seq<Step>, c: nat)
    requires limit < TWO_32 && After(limit, steps).Some?
    requires var s := After(limit, steps).value;
             && !s.late && !s.a.overrun && c in s.a.calls && s.a.calls[c].pc.Waiting?
             && s.a.calls[c].chan.Some? && s.a.calls[c].chan.value.FromPeer?
    ensures var s := After(limit, steps).value;
            var call := s.a.calls[c];
            exists k: nat :: AnsweredBy(s, k, call.op, call.data, call.chan.value.r) && s.a.sent[k].reg == call.pc.reg
  {
    InitialInv(limit);
    ExecInv(Initial(limit), steps);
    var s := After(limit, steps).value;
    var call := s.a.calls[c];
    assert A.RightAnswer(s.a, c);
    var r := call.chan.value.r;
    assert RepliesTo(s, call.pc.reg, r);
    var j :| 0 <= j < |s.b.out| && s.b.out[j].r == r && s.b.out[j].k < |s.a.sent| &&
              s.a.sent[s.b.out[j].k].reg == call.pc.reg;
    var k := s.b.out[j].k;
    assert OwnContent(s.a, c, k);
    assert s.b.out[j] == B.Reply(k, r);
    AnswerIsReply(s, j);
    assert AnsweredBy(s, k, call.op, call.data, r);
  }

  /** The condition of the theorem fails only in runs that issue more than 2^32 ids. */
  lemma {:induction false} FlagsNeedManyIds(s: State, steps: seq<Step>)
    requires B.Numbered(s.b) && Exec(s, steps).Some?
    requires s.late || s.a.overrun ==> s.a.regs > TWO_32
    ensures var r := Exec(s, steps).value; r.late || r.a.overrun ==> r.a.regs > TWO_32
    decreases |steps|
  {
    hide Apply, Enabled, B.Numbered;
    if steps != [] {
      StepCounts(s, steps[0]);
      StepNumbered(s, steps[0]);
      FlagsNeedManyIds(Apply(s, steps[0]), steps[1..]);
    }
  }

  lemma StepCounts(s: State, step: Step)
    requires B.Numbered(s.b) && Enabled(s, step)
    requires s.late || s.a.overrun ==> s.a.regs > TWO_32
    ensures var r := Apply(s, step); r.late || r.a.overrun ==> r.a.regs > TWO_32
  {
    hide A.Apply, A.Enabled, B.Apply, B.Enabled, B.Numbered;
    if step.Local? || step.ReplyArrives? || step.ReplyTorn? {
      var sa := if step.Local? then step.sa
                else if step.ReplyArrives? then A.Take(s.b.out[s.taken].r)
                else A.Tear(s.b.out[s.taken].r.id);
      StepShared(s.a, sa);
      A.StepOverrun(s.a, sa);
    }
  }
}
