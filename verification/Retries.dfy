/**
 What BufferRequest does with the answers it receives (sock.go:282-324), told by the steps of a run
 alone: how often a call registers, what it receives, when it sends again and what it returns.
 */
module Retries {
  import opened Bytes
  import opened Requestor

  /** A run of one step more is a run and a step. */
  lemma {:induction false} ExecSplits(s: State, steps: seq<Step>)
    requires steps != [] && Exec(s, steps).Some?
    ensures var init, last := steps[..|steps| - 1], steps[|steps| - 1];
            && Exec(s, init).Some? && Enabled(Exec(s, init).value, last)
            && Exec(s, steps) == Some(Apply(Exec(s, init).value, last))
    decreases |steps|
  {
    hide Enabled, Apply;
    var init, last := steps[..|steps| - 1], steps[|steps| - 1];
    if |steps| == 1 {
      assert init == [] && steps[1..] == [];
      assert Exec(Apply(s, last), []) == Some(Apply(s, last));
    } else {
      assert init[1..] == steps[1..][..|steps| - 2];
      ExecSplits(Apply(s, steps[0]), steps[1..]);
    }
  }

  /** The numbers of the registrations that a BufferRequest has made in a run, in order. */
  function Attempts(steps: seq<Step>, c: nat): seq<nat>
    requires After(steps).Some?
    decreases |steps|
  {
    if steps == [] then []
    else
      ExecSplits(Initial(), steps);
      var init := steps[..|steps| - 1];
      Attempts(init, c) + if steps[|steps| - 1] == Register(c) then [After(init).value.regs] else []
  }

  /** What it has received, in order. */
  function Received(steps: seq<Step>, c: nat): seq<Answer>
    requires After(steps).Some?
    decreases |steps|
  {
    if steps == [] then []
    else
      ExecSplits(Initial(), steps);
      var init := steps[..|steps| - 1];
      Received(init, c) + if steps[|steps| - 1] == Receive(c) then [After(init).value.calls[c].chan.value] else []
  }

  lemma OneMore(steps: seq<Step>, c: nat)
    requires steps != [] && After(steps).Some?
    ensures var init, last := steps[..|steps| - 1], steps[|steps| - 1];
            && After(init).Some? && Enabled(After(init).value, last)
            && After(steps).value == Apply(After(init).value, last)
            && Attempts(steps, c) == Attempts(init, c) + (if last == Register(c) then [After(init).value.regs] else [])
            && Received(steps, c) ==
               Received(init, c) + if last == Receive(c) then [After(init).value.calls[c].chan.value] else []
  {
    ExecSplits(Initial(), steps);
    hide Exec, Enabled, Apply;
  }

  // ----- When a call sends again --------------------------------------------------------------

  /** "Try again": an 'e' of the peer. */
  predicate IsRetry(a: Answer) {
    a.FromPeer? && a.r.kind.Retry?
  }

  predicate AllRetries(got: seq<Answer>) {
    forall a :: a in got ==> IsRetry(a)
  }

  /** Where a BufferRequest is, given its registrations and what it received. */
  predicate Obeys(pc: Pc, regs: seq<nat>, got: seq<Answer>) {
    match pc
    case Ready => |regs| == |got| && AllRetries(got)
    case Registered(reg) => |regs| == |got| + 1 && AllRetries(got) && regs[|got|] == reg
    case WriteFailed(reg) => |regs| == |got| + 1 && AllRetries(got) && regs[|got|] == reg
    case Waiting(reg) => |regs| == |got| + 1 && AllRetries(got) && regs[|got|] == reg
    case Returned(SendError) => |regs| == |got| + 1 && AllRetries(got)
    case Returned(Got(a)) =>
      |regs| == |got| > 0 && AllRetries(got[..|got| - 1]) && got[|got| - 1] == a && !IsRetry(a)
    case _ => regs == [] && got == []
  }

  predicate ObeysIn(s: State, c: nat, regs: seq<nat>, got: seq<Answer>) {
    if c in s.calls then Obeys(s.calls[c].pc, regs, got) else regs == [] && got == []
  }

  lemma StepObeys(s: State, step: Step, c: nat, regs: seq<nat>, got: seq<Answer>)
    requires ObeysIn(s, c, regs, got) && Enabled(s, step)
    ensures ObeysIn(Apply(s, step), c,
                    regs + (if step == Register(c) then [s.regs] else []),
                    got + if step == Receive(c) then [s.calls[c].chan.value] else [])
  {
    assert regs + [] == regs && got + [] == got;
    if step == Receive(c) {
      assert (got + [s.calls[c].chan.value])[..|got|] == got;
    }
  }

  /**
   The law of BufferRequest, over every run. It registers once more after each 'e' and never
   otherwise; any other answer ends it, be it an 'R', an 'E', an 'S' or the close of the socket,
   and it returns that answer; a write that fails ends it as well.
   */
  lemma {:induction false} SendsAgainOnRetry(steps: seq<Step>, c: nat)
    requires After(steps).Some?
    ensures ObeysIn(After(steps).value, c, Attempts(steps, c), Received(steps, c))
    decreases |steps|
  {
    hide Exec, Enabled, Apply, ObeysIn;
    if steps == [] {
      NothingYet(c);
    } else {
      OneMore(steps, c);
      var init, last := steps[..|steps| - 1], steps[|steps| - 1];
      SendsAgainOnRetry(init, c);
      StepObeys(After(init).value, last, c, Attempts(init, c), Received(init, c));
    }
  }

  lemma NothingYet(c: nat)
    ensures After([]) == Some(Initial()) && ObeysIn(Initial(), c, [], [])
  {
  }

  // ----- Each answer is the one to its own registration ---------------------------------------

  /** r is the response taken for the registration, and no other will be. */
  predicate Settled(s: State, reg: nat, r: Response) {
    && reg < s.regs && reg in s.answers && s.answers[reg] == r
    && forall id :: id in s.pending && IsForSingle(s, s.pending[id]) ==> s.pending[id].reg != reg
  }

  lemma StepSettled(s: State, step: Step, reg: nat, r: Response)
    requires Settled(s, reg, r) && Filed(s) && Enabled(s, step)
    ensures Settled(Apply(s, step), reg, r)
  {
    var s' := Apply(s, step);
    forall id | id in s'.pending && IsForSingle(s', s'.pending[id])
      ensures s'.pending[id].reg != reg
    {
      if id in s.pending && s.pending[id] == s'.pending[id] {
        assert FiledAt(s, id);
        assert IsForSingle(s, s.pending[id]);
      }
    }
  }

  lemma ReceiveSettles(s: State, c: nat)
    requires Fresh(s) && Filed(s) && Once(s) && Enabled(s, Receive(c)) && s.calls[c].chan.value.FromPeer?
    ensures Settled(s, s.calls[c].pc.reg, s.calls[c].chan.value.r)
  {
    var reg := s.calls[c].pc.reg;
    assert NotTwice(s, c) && RightAnswer(s, c) && InWindow(s, c);
    forall id | id in s.pending && IsForSingle(s, s.pending[id])
      ensures s.pending[id].reg != reg
    {
      assert EntryLive(s, id) && FiledAt(s, id) && Distinct(s, s.pending[id].call, c);
    }
  }

  /** What was received in answer to each registration. */
  predicate AllSettled(s: State, regs: seq<nat>, got: seq<Answer>) {
    |got| <= |regs| && forall i :: 0 <= i < |got| && got[i].FromPeer? ==> Settled(s, regs[i], got[i].r)
  }

  lemma StepAllSettled(s: State, step: Step, c: nat, regs: seq<nat>, got: seq<Answer>)
    requires Fresh(s) && Filed(s) && Once(s) && Enabled(s, step)
    requires AllSettled(s, regs, got) && ObeysIn(s, c, regs, got)
    ensures AllSettled(Apply(s, step),
                       regs + (if step == Register(c) then [s.regs] else []),
                       got + if step == Receive(c) then [s.calls[c].chan.value] else [])
  {
    var s' := Apply(s, step);
    var regs' := regs + if step == Register(c) then [s.regs] else [];
    var got' := got + if step == Receive(c) then [s.calls[c].chan.value] else [];
    if step == Receive(c) {
      ReceivesForLast(s, c, regs, got);
      if s.calls[c].chan.value.FromPeer? {
        ReceiveSettles(s, c);
      }
    }
    hide Apply, Enabled, Fresh, Filed, Once, Settled, ObeysIn;
    forall i | 0 <= i < |got'| && got'[i].FromPeer?
      ensures Settled(s', regs'[i], got'[i].r)
    {
      if i < |got| {
        assert regs'[i] == regs[i] && got'[i] == got[i];
      }
      StepSettled(s, step, regs'[i], got'[i].r);
    }
  }

  lemma ReceivesForLast(s: State, c: nat, regs: seq<nat>, got: seq<Answer>)
    requires Enabled(s, Receive(c)) && ObeysIn(s, c, regs, got)
    ensures |regs| == |got| + 1 && regs[|got|] == s.calls[c].pc.reg
  {
  }

  lemma {:induction false} AnswersSettled(steps: seq<Step>, c: nat)
    requires After(steps).Some? && !After(steps).value.overrun && !After(steps).value.streamed
    ensures AllSettled(After(steps).value, Attempts(steps, c), Received(steps, c))
    decreases |steps|
  {
    hide Exec, Enabled, Apply, ObeysIn, Settled, Fresh, Filed, AllAccounted, Once;
    if steps != [] {
      OneMore(steps, c);
      var init, last := steps[..|steps| - 1], steps[|steps| - 1];
      var s := After(init).value;
      if s.overrun || s.streamed {
        StepKeepsFlags(s, last);
      }
      AnswersSettled(init, c);
      ReachableInv(init);
      SendsAgainOnRetry(init, c);
      StepAllSettled(s, last, c, Attempts(init, c), Received(init, c));
    }
  }

  /**
   Each answer that a call has received from the peer is the response taken for the registration
   it was waiting with: the i-th answer is that to the i-th registration.
   */
  lemma AnswersMatchAttempts(steps: seq<Step>, c: nat, i: nat)
    requires After(steps).Some? && !After(steps).value.overrun && !After(steps).value.streamed
    requires i < |Received(steps, c)| && Received(steps, c)[i].FromPeer?
    ensures i < |Attempts(steps, c)|
    ensures var reg, s := Attempts(steps, c)[i], After(steps).value;
            reg in s.answers && s.answers[reg] == Received(steps, c)[i].r
  {
    AnswersSettled(steps, c);
    assert Settled(After(steps).value, Attempts(steps, c)[i], Received(steps, c)[i].r);
  }

  // ----- What was written for a registration --------------------------------------------------

  lemma {:induction false} AttemptsAreOwn(steps: seq<Step>, c: nat, d: nat, reg: nat)
    requires After(steps).Some? && reg in Attempts(steps, c)
    ensures reg < After(steps).value.regs
    ensures c != d ==> reg !in Attempts(steps, d)
    decreases |steps|
  {
    hide Exec, Enabled, Apply;
    OneMore(steps, c);
    OneMore(steps, d);
    var init, last := steps[..|steps| - 1], steps[|steps| - 1];
    var s := After(init).value;
    StepRegs(s, last);
    if reg in Attempts(init, c) {
      AttemptsAreOwn(init, c, d, reg);
    } else {
      RegisterCounts(s, c);
      if s.regs in Attempts(init, d) {
        AttemptsAreOwn(init, d, c, s.regs);
      }
    }
  }

  lemma RegisterCounts(s: State, c: nat)
    requires Enabled(s, Register(c))
    ensures Apply(s, Register(c)).regs == s.regs + 1
  {
  }

  /** A request written for a registration of call c has the operation and payload of c. */
  predicate IsOwn(s: State, regs: seq<nat>, c: nat) {
    c in s.calls ==>
      forall i :: 0 <= i < |s.sent| && s.sent[i].reg in regs ==>
        s.sent[i].op == s.calls[c].op && s.sent[i].data == s.calls[c].data
  }

  lemma StepCall(s: State, step: Step, c: nat)
    requires Enabled(s, step) && c in s.calls
    ensures c in Apply(s, step).calls
    ensures Apply(s, step).calls[c].op == s.calls[c].op && Apply(s, step).calls[c].data == s.calls[c].data
  {
    hide IsPending;
  }

  lemma StepSent(s: State, step: Step)
    requires Enabled(s, step)
    ensures var s' := Apply(s, step);
            && s'.regs >= s.regs
            && (!step.WriteOk? ==> s'.sent == s.sent)
            && (step.WriteOk? ==>
                 && step.c in s.calls && s.calls[step.c].pc.Registered?
                 && |s'.sent| == |s.sent| + 1 && s'.sent[..|s.sent|] == s.sent
                 && var call, r := s.calls[step.c], s'.sent[|s.sent|];
                    r.reg == call.pc.reg && r.op == call.op && r.data == call.data)
  {
    hide IsPending, Late;
  }

  lemma WritesForLast(s: State, c: nat, regs: seq<nat>, got: seq<Answer>)
    requires c in s.calls && s.calls[c].pc.Registered? && ObeysIn(s, c, regs, got)
    ensures s.calls[c].pc.reg in regs
  {
  }

  lemma {:induction false} WrittenIsOwn(steps: seq<Step>, c: nat)
    requires After(steps).Some?
    ensures var s := After(steps).value;
            && IsOwn(s, Attempts(steps, c), c)
            && forall i :: 0 <= i < |s.sent| ==> s.sent[i].reg < s.regs
    decreases |steps|
  {
    hide Exec, Enabled, Apply, ObeysIn;
    if steps == [] {
      NothingYet(c);
    } else {
      OneMore(steps, c);
      var init, last := steps[..|steps| - 1], steps[|steps| - 1];
      var s, s', regs' := After(init).value, After(steps).value, Attempts(steps, c);
      WrittenIsOwn(init, c);
      StepSent(s, last);
      SendsAgainOnRetry(init, c);
      if last.WriteOk? {
        SendsAgainOnRetry(init, last.c);
        WritesForLast(s, last.c, Attempts(init, last.c), Received(init, last.c));
        AttemptsAreOwn(init, last.c, c, s.calls[last.c].pc.reg);
      }
      if c in s.calls {
        StepCall(s, last, c);
      } else {
        NoAttempts(s, c, Attempts(init, c), Received(init, c));
        NewHasNone(s, last, c);
      }
      forall i | 0 <= i < |s'.sent|
        ensures s'.sent[i].reg < s'.regs
        ensures c in s'.calls && s'.sent[i].reg in regs' ==>
                  s'.sent[i].op == s'.calls[c].op && s'.sent[i].data == s'.calls[c].data
      {
        if i < |s.sent| {
          assert s'.sent[..|s.sent|][i] == s.sent[i];
        }
      }
    }
  }

  lemma NoAttempts(s: State, c: nat, regs: seq<nat>, got: seq<Answer>)
    requires c !in s.calls && ObeysIn(s, c, regs, got)
    ensures regs == []
  {
  }

  lemma NewHasNone(s: State, step: Step, c: nat)
    requires c !in s.calls && Enabled(s, step)
    ensures step != Register(c)
  {
  }
}
