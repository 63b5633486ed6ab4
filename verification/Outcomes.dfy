/**
 What a call between two peers comes to (sock.go:282-324, 399-448): each answer that it received is
 the peer's one answer to the request it had written for it, "try again" means that the peer was
 full, and nothing else makes the call send its request again.
 */
module Outcomes {
  import opened Bytes
  import opened Peers
  import opened Retries
  import opened Causes
  import A = Requestor
  import B = Responder

  lemma {:induction false} PeersSplit(s: State, steps: seq<Step>)
    requires B.Numbered(s.b) && steps != [] && Exec(s, steps).Some?
    ensures var init, last := steps[..|steps| - 1], steps[|steps| - 1];
            && Exec(s, init).Some? && B.Numbered(Exec(s, init).value.b) && Enabled(Exec(s, init).value, last)
            && Exec(s, steps) == Some(Apply(Exec(s, init).value, last))
    decreases |steps|
  {
    hide Enabled, Apply, B.Numbered;
    var init, last := steps[..|steps| - 1], steps[|steps| - 1];
    StepNumbered(s, steps[0]);
    if |steps| == 1 {
      assert init == [] && steps[1..] == [];
      assert Exec(Apply(s, last), []) == Some(Apply(s, last));
    } else {
      assert init[1..] == steps[1..][..|steps| - 2];
      PeersSplit(Apply(s, steps[0]), steps[1..]);
    }
  }

  // ----- What each of the two did -------------------------------------------------------------

  /** The step of the requestor in a step of the two. */
  function OfA(s: State, step: Step): seq<A.Step>
    requires Enabled(s, step)
  {
    match step
    case Local(sa) => [sa]
    case ReplyArrives => [A.Take(s.b.out[s.taken].r)]
    case ReplyTorn => [A.Tear(s.b.out[s.taken].r.id)]
    case _ => []
  }

  /** The step of the responder. */
  function OfB(s: State, step: Step): seq<B.Step>
    requires Enabled(s, step)
  {
    match step
    case Remote(sb) => [sb]
    case RequestArrives => [B.Accept(s.a.sent[|s.b.received|], false)]
    case _ => []
  }

  /** The run of the requestor in a run of the two. */
  function RunOfA(limit: nat, steps: seq<Step>): seq<A.Step>
    requires limit < TWO_32 && After(limit, steps).Some?
    decreases |steps|
  {
    if steps == [] then []
    else
      PeersSplit(Initial(limit), steps);
      var init := steps[..|steps| - 1];
      RunOfA(limit, init) + OfA(After(limit, init).value, steps[|steps| - 1])
  }

  function RunOfB(limit: nat, steps: seq<Step>): seq<B.Step>
    requires limit < TWO_32 && After(limit, steps).Some?
    decreases |steps|
  {
    if steps == [] then []
    else
      PeersSplit(Initial(limit), steps);
      var init := steps[..|steps| - 1];
      RunOfB(limit, init) + OfB(After(limit, init).value, steps[|steps| - 1])
  }

  lemma StepOfA(s: State, step: Step)
    requires B.Numbered(s.b) && Enabled(s, step)
    ensures OfA(s, step) == [] ==> Apply(s, step).a == s.a
    ensures OfA(s, step) != [] ==>
              && |OfA(s, step)| == 1 && A.Enabled(s.a, OfA(s, step)[0])
              && Apply(s, step).a == A.Apply(s.a, OfA(s, step)[0])
  {
    hide A.Enabled, A.Apply, B.Enabled, B.Apply, B.Numbered;
  }

  lemma StepOfB(s: State, step: Step)
    requires B.Numbered(s.b) && Enabled(s, step)
    ensures OfB(s, step) == [] ==> Apply(s, step).b == s.b
    ensures OfB(s, step) != [] ==>
              && |OfB(s, step)| == 1 && B.Enabled(s.b, OfB(s, step)[0])
              && Apply(s, step).b == B.Apply(s.b, OfB(s, step)[0])
  {
    hide A.Enabled, A.Apply, B.Enabled, B.Apply, B.Numbered;
  }

  /** Each of the two, looked at alone, is in a run of its own. */
  lemma {:induction false} Projects(limit: nat, steps: seq<Step>)
    requires limit < TWO_32 && After(limit, steps).Some?
    ensures A.After(RunOfA(limit, steps)) == Some(After(limit, steps).value.a)
    ensures B.After(limit, 0, RunOfB(limit, steps)) == Some(After(limit, steps).value.b)
    decreases |steps|
  {
    if steps == [] {
      B.NoSteps(limit, 0);
    } else {
      hide Exec, Enabled, Apply, A.Exec, A.Enabled, A.Apply, B.Exec, B.Enabled, B.Apply, B.Numbered, OfA, OfB;
      PeersSplit(Initial(limit), steps);
      var init, last := steps[..|steps| - 1], steps[|steps| - 1];
      Projects(limit, init);
      var s := After(limit, init).value;
      var ra, rb := RunOfA(limit, init), RunOfB(limit, init);
      StepOfA(s, last);
      StepOfB(s, last);
      assert ra + [] == ra && rb + [] == rb;
      if OfA(s, last) != [] {
        A.ExecAppend(A.Initial(), ra, OfA(s, last)[0]);
        assert [OfA(s, last)[0]] == OfA(s, last);
      }
      if OfB(s, last) != [] {
        B.ExecAppend(B.Initial(limit, 0), rb, OfB(s, last)[0]);
        assert [OfB(s, last)[0]] == OfB(s, last);
      }
    }
  }

  // ----- The theorem --------------------------------------------------------------------------

  /** The peer was full when request k arrived. */
  predicate WasFull(limit: nat, steps: seq<Step>, k: nat)
    requires limit < TWO_32 && After(limit, steps).Some?
    requires IsRun(Causes.Limits(limit, 0), RunOfB(limit, steps))
  {
    k in OverLimit(Causes.Limits(limit, 0), RunOfB(limit, steps))
  }

  /** r is what became of request k at the peer: refused, rejected, or what its handler replied. */
  predicate IsDue(limit: nat, steps: seq<Step>, k: nat, op: seq<byte>, r: A.Response)
    requires limit < TWO_32 && After(limit, steps).Some?
    requires IsRun(Causes.Limits(limit, 0), RunOfB(limit, steps))
  {
    var lim := Causes.Limits(limit, 0);
    Suits(lim, op, false, FateOf(lim, RunOfB(limit, steps), k), B.Single(B.Content(r.kind, r.data)))
  }

  /** Answer r is the peer's one answer to the request that this call wrote for this registration. */
  predicate IsAnswerTo(s: State, call: A.Call, reg: nat, r: A.Response, k: nat) {
    AnsweredBy(s, k, call.op, call.data, r) && s.a.sent[k].reg == reg
  }

  /**
   The life of a BufferRequest between two peers, over every run in which ids do not wrap onto
   pending ones. Its registrations and what it received are in step: it sends again after each
   "try again" and returns any other answer. Its i-th answer is the one answer that the peer gave to
   the request written for its i-th registration, with its own operation and payload: "try again"
   exactly if the peer was full when that request arrived, an error if it had no handler for it, and
   otherwise just what its handler replied.
   */
  lemma CallsGetTheirAnswers(limit: nat, steps: seq<Step>, c: nat, i: nat)
    requires limit < TWO_32 && After(limit, steps).Some?
    requires var s := After(limit, steps).value;
             !s.late && !s.a.overrun && c in s.a.calls && !A.IsStream(s.a.calls[c].pc)
    ensures var s, run := After(limit, steps).value, RunOfA(limit, steps);
            && A.After(run) == Some(s.a) && IsRun(Causes.Limits(limit, 0), RunOfB(limit, steps))
            && var regs, got := Attempts(run, c), Received(run, c);
               && Obeys(s.a.calls[c].pc, regs, got)
               && (i < |got| && got[i].FromPeer? ==>
                    i < |regs| && exists k: nat ::
                      && IsAnswerTo(s, s.a.calls[c], regs[i], got[i].r, k)
                      && IsDue(limit, steps, k, s.a.calls[c].op, got[i].r)
                      && (IsRetry(got[i]) <==> WasFull(limit, steps, k)))
  {
    Projects(limit, steps);
    InitialInv(limit);
    ExecInv(Initial(limit), steps);
    var s, run := After(limit, steps).value, RunOfA(limit, steps);
    hide Exec, A.Exec, B.Exec, SoundA, B.Inv, Obeys, AnsweredBy, WasFull, IsDue;
    SendsAgainOnRetry(run, c);
    var regs, got := Attempts(run, c), Received(run, c);
    if i < |got| && got[i].FromPeer? {
      NotStreamed(s);
      AnswersMatchAttempts(run, c, i);
      var k := FindsItsRequest(limit, steps, c, regs[i], got[i].r);
      assert IsAnswerTo(s, s.a.calls[c], regs[i], got[i].r, k);
    }
  }

  lemma NotStreamed(s: State)
    requires Sound(s)
    ensures !s.a.streamed
  {
  }

  /** The request that the response taken for a registration answers. */
  lemma FindsItsRequest(limit: nat, steps: seq<Step>, c: nat, reg: nat, r: A.Response) returns (k: nat)
    requires limit < TWO_32 && After(limit, steps).Some? && Sound(After(limit, steps).value)
    requires A.After(RunOfA(limit, steps)) == Some(After(limit, steps).value.a)
    requires IsRun(Causes.Limits(limit, 0), RunOfB(limit, steps))
    requires B.After(limit, 0, RunOfB(limit, steps)) == Some(After(limit, steps).value.b)
    requires var a := After(limit, steps).value.a;
             c in a.calls && reg in Attempts(RunOfA(limit, steps), c) && reg in a.answers && a.answers[reg] == r
    ensures var s := After(limit, steps).value;
            && IsAnswerTo(s, s.a.calls[c], reg, r, k) && IsDue(limit, steps, k, s.a.calls[c].op, r)
            && (r.kind.Retry? <==> WasFull(limit, steps, k))
  {
    var s, lim := After(limit, steps).value, Causes.Limits(limit, 0);
    hide Exec, A.Exec, B.Exec, SoundA, B.Inv;
    assert RepliesTo(s, reg, r);
    var j :| 0 <= j < |s.b.out| && s.b.out[j].r == r && s.b.out[j].k < |s.a.sent| &&
              s.a.sent[s.b.out[j].k].reg == reg;
    k := s.b.out[j].k;
    WrittenIsOwn(RunOfA(limit, steps), c);
    AnswerIsReply(s, j);
    assert s.b.out[j] == B.Reply(k, r);
    hide FateOf, Suits;
    RetryMeansFull(lim, RunOfB(limit, steps), j);
    AnsweredForACause(lim, RunOfB(limit, steps), k);
    NoStreams(s, k);
    FullIsOver(lim, RunOfB(limit, steps), k);
  }

  lemma FullIsOver(lim: Causes.Limits, run: seq<B.Step>, k: nat)
    requires IsRun(lim, run)
    ensures FateOf(lim, run, k).over <==> k in OverLimit(lim, run)
  {
  }

  lemma NoStreams(s: State, k: nat)
    requires Sound(s)
    ensures !B.IsStream(s.b, k)
  {
  }

  /** Once a call has received its answer it is about to send again exactly if the peer was full. */
  lemma SendsAgainIfFull(limit: nat, steps: seq<Step>, c: nat)
    requires limit < TWO_32 && After(limit, steps).Some?
    requires var s := After(limit, steps).value;
             !s.late && !s.a.overrun && c in s.a.calls && !A.IsStream(s.a.calls[c].pc)
    requires steps != [] && steps[|steps| - 1] == Local(A.Receive(c))
    ensures var s, run := After(limit, steps).value, RunOfA(limit, steps);
            && A.After(run) == Some(s.a) && IsRun(Causes.Limits(limit, 0), RunOfB(limit, steps))
            && var regs, got := Attempts(run, c), Received(run, c);
               && 0 < |got| <= |regs|
               && (got[|got| - 1].FromClose? ==> s.a.calls[c].pc == A.Returned(A.Got(A.FromClose)))
               && (got[|got| - 1].FromPeer? ==>
                    exists k: nat ::
                      && IsAnswerTo(s, s.a.calls[c], regs[|got| - 1], got[|got| - 1].r, k)
                      && (if WasFull(limit, steps, k) then s.a.calls[c].pc.Ready?
                          else s.a.calls[c].pc == A.Returned(A.Got(got[|got| - 1]))))
  {
    hide Exec, A.Exec, B.Exec, Obeys, IsAnswerTo, IsDue, WasFull, RunOfA, RunOfB, Attempts, Received;
    CallsGetTheirAnswers(limit, steps, c, 0);
    EndsWithReceive(limit, steps, c);
    var run := RunOfA(limit, steps);
    var got := Received(run, c);
    CallsGetTheirAnswers(limit, steps, c, |got| - 1);
    OneMore(run, c);
    AfterReceive(A.After(run[..|run| - 1]).value, c, Attempts(run, c), got);
    hide A.Apply, A.Enabled;
  }

  lemma EndsWithReceive(limit: nat, steps: seq<Step>, c: nat)
    requires limit < TWO_32 && After(limit, steps).Some?
    requires steps != [] && steps[|steps| - 1] == Local(A.Receive(c)) && A.After(RunOfA(limit, steps)).Some?
    ensures var run := RunOfA(limit, steps);
            run != [] && run[|run| - 1] == A.Receive(c) && Received(run, c) != []
  {
    hide Exec, A.Exec, A.Enabled, A.Apply;
    PeersSplit(Initial(limit), steps);
    OneMore(RunOfA(limit, steps), c);
  }

  lemma AfterReceive(a: A.State, c: nat, regs: seq<nat>, got: seq<A.Answer>)
    requires A.Enabled(a, A.Receive(c)) && c in A.Apply(a, A.Receive(c)).calls && got != []
    requires Obeys(A.Apply(a, A.Receive(c)).calls[c].pc, regs, got)
    ensures var pc := A.Apply(a, A.Receive(c)).calls[c].pc;
            |got| <= |regs| && if IsRetry(got[|got| - 1]) then pc.Ready? else pc == A.Returned(A.Got(got[|got| - 1]))
  {
  }
}
