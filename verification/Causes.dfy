/**
 Why a request is answered as it is (sock.go:399-448, 486-530), told by the steps of a run alone:
 refused because the limit had been reached, rejected for want of a handler, or answered by the
 handler it was given to.
 */
module Causes {
  import opened Bytes
  import opened Counter
  import Requestor
  import opened Responder
  import W = StreamWriter

  /** A run of one step more is a run and a step. */
  lemma {:induction false} ExecSplits(s: State, steps: seq<Step>)
    requires Numbered(s) && steps != [] && Exec(s, steps).Some?
    ensures var init, last := steps[..|steps| - 1], steps[|steps| - 1];
            && Exec(s, init).Some? && Enabled(Exec(s, init).value, last)
            && Exec(s, steps) == Some(Apply(Exec(s, init).value, last))
    decreases |steps|
  {
    hide Enabled, Apply, Numbered;
    var init, last := steps[..|steps| - 1], steps[|steps| - 1];
    StepNumbered(s, steps[0]);
    if |steps| == 1 {
      assert init == [] && steps[1..] == [];
      assert Exec(Apply(s, last), []) == Some(Apply(s, last));
    } else {
      assert init[1..] == steps[1..][..|steps| - 2];
      ExecSplits(Apply(s, steps[0]), steps[1..]);
    }
  }

  /** The limits of a socket, for single and for stream requests. */
  datatype Limits = Limits(single: nat, stream: nat)

  predicate IsRun(lim: Limits, steps: seq<Step>) {
    lim.single < TWO_32 && lim.stream < TWO_32 && After(lim.single, lim.stream, steps).Some?
  }

  function End(lim: Limits, steps: seq<Step>): (s: State)
    requires IsRun(lim, steps)
    ensures Numbered(s)
  {
    After(lim.single, lim.stream, steps).value
  }

  function LimitFor(lim: Limits, stream: bool): nat {
    if stream then lim.stream else lim.single
  }

  // ----- What happened to a request -----------------------------------------------------------

  /** As many requests of this kind are running as the limit allows. */
  predicate IsFull(lim: Limits, s: State, stream: bool) {
    LimitFor(lim, stream) != 0xFFFF_FFFF && |HandlersOf(s, stream)| >= LimitFor(lim, stream)
  }

  /** The requests that arrived when the limit for their kind had been reached. */
  function OverLimit(lim: Limits, steps: seq<Step>): set<nat>
    requires IsRun(lim, steps)
    decreases |steps|
  {
    if steps == [] then {}
    else
      ExecSplits(Initial(lim.single, lim.stream), steps);
      var init := steps[..|steps| - 1];
      OverLimit(lim, init) + NewlyOver(lim, End(lim, init), steps[|steps| - 1])
  }

  function NewlyOver(lim: Limits, s: State, step: Step): set<nat> {
    if step.Accept? && IsFull(lim, s, step.stream) then {|s.received|} else {}
  }

  function NewlyUnhandled(s: State, step: Step): set<nat>
    requires Enabled(s, step)
  {
    if step.RejectUnknown? then {s.loop.k} else {}
  }

  function NewlyServed(s: State, step: Step): set<nat>
    requires Enabled(s, step)
  {
    if step.Dispatch? then {s.loop.k} else {}
  }

  /** Those for whose operation the loop found no handler, and those it passed on to one. */
  function Unhandled(lim: Limits, steps: seq<Step>): set<nat>
    requires IsRun(lim, steps)
    decreases |steps|
  {
    if steps == [] then {}
    else
      ExecSplits(Initial(lim.single, lim.stream), steps);
      var init := steps[..|steps| - 1];
      Unhandled(lim, init) + NewlyUnhandled(End(lim, init), steps[|steps| - 1])
  }

  function Served(lim: Limits, steps: seq<Step>): set<nat>
    requires IsRun(lim, steps)
    decreases |steps|
  {
    if steps == [] then {}
    else
      ExecSplits(Initial(lim.single, lim.stream), steps);
      var init := steps[..|steps| - 1];
      Served(lim, init) + NewlyServed(End(lim, init), steps[|steps| - 1])
  }

  /** What the handler of request k has replied, has done with its writer, and has returned from it. */
  function Replied(steps: seq<Step>, k: nat): Option<Content> {
    if steps == [] then None else ReplyAfter(Replied(steps[..|steps| - 1], k), steps[|steps| - 1], k)
  }

  function ReplyAfter(was: Option<Content>, step: Step, k: nat): Option<Content> {
    if step.HandlerReplies? && step.k == k then Some(Content(step.kind, step.data)) else was
  }

  function Script(steps: seq<Step>, k: nat): seq<W.Op> {
    if steps == [] then [] else ScriptAfter(Script(steps[..|steps| - 1], k), steps[|steps| - 1], k)
  }

  function ScriptAfter(was: seq<W.Op>, step: Step, k: nat): seq<W.Op> {
    if step.StreamOp? && step.k == k then was + [step.op] else was
  }

  function Failed(steps: seq<Step>, k: nat): Option<seq<byte>> {
    if steps == [] then None else FailAfter(Failed(steps[..|steps| - 1], k), steps[|steps| - 1], k)
  }

  function FailAfter(was: Option<seq<byte>>, step: Step, k: nat): Option<seq<byte>> {
    if step.StreamReturns? && step.k == k then step.fail else was
  }

  // ----- What every step keeps ----------------------------------------------------------------

  /** What has happened to one request so far. */
  datatype Fate = Fate(over: bool, unhandled: bool, served: bool,
                       replied: Option<Content>, script: seq<W.Op>, fail: Option<seq<byte>>)

  function FateOf(lim: Limits, steps: seq<Step>, k: nat): Fate
    requires IsRun(lim, steps)
  {
    Fate(k in OverLimit(lim, steps), k in Unhandled(lim, steps), k in Served(lim, steps),
         Replied(steps, k), Script(steps, k), Failed(steps, k))
  }

  /** What a step does to it. */
  function Next(lim: Limits, s: State, step: Step, k: nat, f: Fate): Fate
    requires Enabled(s, step)
  {
    Fate(f.over || k in NewlyOver(lim, s, step), f.unhandled || k in NewlyUnhandled(s, step),
         f.served || k in NewlyServed(s, step),
         ReplyAfter(f.replied, step, k), ScriptAfter(f.script, step, k), FailAfter(f.fail, step, k))
  }

  lemma RunSteps(lim: Limits, steps: seq<Step>)
    requires IsRun(lim, steps) && steps != []
    ensures var init, last := steps[..|steps| - 1], steps[|steps| - 1];
            && IsRun(lim, init) && Enabled(End(lim, init), last)
            && End(lim, steps) == Apply(End(lim, init), last)
  {
    ExecSplits(Initial(lim.single, lim.stream), steps);
    hide Exec, Apply, Enabled;
  }

  lemma FateSteps(lim: Limits, steps: seq<Step>, k: nat)
    requires IsRun(lim, steps) && steps != []
    ensures var init, last := steps[..|steps| - 1], steps[|steps| - 1];
            && IsRun(lim, init) && Enabled(End(lim, init), last)
            && End(lim, steps) == Apply(End(lim, init), last)
            && FateOf(lim, steps, k) == Next(lim, End(lim, init), last, k, FateOf(lim, init, k))
  {
    RunSteps(lim, steps);
    hide IsRun, End, Apply, Enabled, NewlyOver, NewlyUnhandled, NewlyServed, ReplyAfter, ScriptAfter, FailAfter;
  }

  /** The reply to a request over the limit, and that to one for an operation without a handler. */
  function RefusedBy(lim: Limits, stream: bool): Content {
    if stream && lim.stream == 0 then Content(Requestor.Failure, Ascii("stream requests not supported"))
    else Content(Requestor.Retry, Ascii("request rate limit"))
  }

  function RejectedFor(op: seq<byte>): Content {
    Content(Requestor.Failure, Ascii("unknown operation \"") + op + Ascii("\""))
  }

  /** The answer of a request is what became of it. */
  predicate Suits(lim: Limits, op: seq<byte>, stream: bool, f: Fate, a: Answer) {
    if f.over then a == Single(RefusedBy(lim, stream))
    else if f.unhandled then a == Single(RejectedFor(op))
    else if stream then a == Stream(f.script, f.fail)
    else f.replied.Some? && a == Single(f.replied.value) && (a.c.kind.Result? || a.c.kind.Failure?)
  }

  predicate FateOk(lim: Limits, s: State, k: nat, f: Fate) {
    && (if f.over then !f.unhandled && !f.served else !(f.unhandled && f.served))
    && (f.over || f.unhandled || f.served ==> k < |s.received|)
    && ((s.loop.BackingOut? || s.loop.Refused?) && s.loop.k == k ==> f.over)
    && (s.loop.Admitted? && s.loop.k == k ==> !f.over && !f.unhandled && !f.served)
    && (k in s.handlers ==> f.served)
    && (k in s.answers ==>
         && k < |s.received| && (f.over || f.unhandled || f.served)
         && Suits(lim, s.received[k].op, IsStream(s, k), f, s.answers[k]))
    && (!f.served ==> f.replied.None? && f.script == [] && f.fail.None?)
    && (k in s.handlers && s.handlers[k].Running? ==>
         s.handlers[k].script == f.script && f.fail.None? && f.replied.None?)
    && (k in s.handlers && s.handlers[k].Closing? ==> s.handlers[k] == Closing(f.script, f.fail))
  }

  lemma EmitFate(lim: Limits, s: State, step: Step, k: nat, f: Fate)
    requires Numbered(s) && Enabled(s, step) && FateOk(lim, s, k, f)
    ensures var s1 := Emit(s, WriteOf(s, step));
            FateOk(lim, s1, k, f) && Enabled(s1, step) && Next(lim, s1, step, k, f) == Next(lim, s, step, k, f)
  {
    EmitNumbered(s, step);
    hide Emit, WriteOf, Numbered, Suits, HandlersOf;
    assert HandlersOf(s, true) == HandlersOf(Emit(s, WriteOf(s, step)), true) by {
      SameHandlers(s, Emit(s, WriteOf(s, step)), true);
    }
    assert HandlersOf(s, false) == HandlersOf(Emit(s, WriteOf(s, step)), false) by {
      SameHandlers(s, Emit(s, WriteOf(s, step)), false);
    }
  }

  /** The limits of the state are those of the run. */
  predicate HasLimits(lim: Limits, s: State) {
    s.singles.limit == lim.single && s.streams.limit == lim.stream
  }

  lemma HandlingFate(lim: Limits, s: State, step: Step, k: nat, f: Fate)
    requires Enabled(s, step) && IsHandling(step) && FateOk(lim, s, k, f) && Numbered(s)
    requires k < |s.received| ==> InOnePlace(s, k) && KindOk(s, k)
    ensures FateOk(lim, Move(s, step), k, Next(lim, s, step, k, f))
  {
    hide Down, RefusedBy, RejectedFor;
  }

  lemma ReplyingFate(lim: Limits, s: State, step: Step, k: nat, f: Fate)
    requires Enabled(s, step) && IsReplying(step) && FateOk(lim, s, k, f)
    requires HasLimits(lim, s) && s.loop.k < |s.received|
    ensures FateOk(lim, Move(s, step), k, Next(lim, s, step, k, f))
  {
    hide Ascii;
  }

  lemma OtherFate(lim: Limits, s: State, step: Step, k: nat, f: Fate)
    requires Enabled(s, step) && !IsHandling(step) && !IsReplying(step) && FateOk(lim, s, k, f) && Numbered(s)
    requires step.Accept? ==> (Move(s, step).loop.BackingOut? <==> IsFull(lim, s, step.stream))
    requires step.Dispatch? ==> s.loop.k !in s.answers
    ensures FateOk(lim, Move(s, step), k, Next(lim, s, step, k, f))
  {
    hide Up, Down, IsFull, RefusedBy, RejectedFor;
  }

  lemma MoveFate(lim: Limits, s: State, step: Step, k: nat, f: Fate)
    requires Enabled(s, step) && Numbered(s) && HasLimits(lim, s) && FateOk(lim, s, k, f)
    requires k < |s.received| ==> InOnePlace(s, k) && KindOk(s, k)
    requires step.Accept? ==> (Move(s, step).loop.BackingOut? <==> IsFull(lim, s, step.stream))
    requires step.Dispatch? ==> s.loop.k !in s.answers
    ensures FateOk(lim, Move(s, step), k, Next(lim, s, step, k, f))
  {
    hide Enabled, Move, InOnePlace, KindOk, FateOk, Next, IsFull, HasLimits;
    if IsHandling(step) {
      HandlingFate(lim, s, step, k, f);
    } else if IsReplying(step) {
      ReplierHolds(s, step);
      ReplyingFate(lim, s, step, k, f);
    } else {
      OtherFate(lim, s, step, k, f);
    }
  }

  lemma ReplierHolds(s: State, step: Step)
    requires Enabled(s, step) && IsReplying(step) && Numbered(s)
    ensures s.loop.k < |s.received|
  {
  }

  /** A request is refused exactly if its kind is full. */
  lemma RefusesWhenFull(lim: Limits, s: State, req: Request, stream: bool)
    requires Inv(s) && HasLimits(lim, s) && Enabled(s, Accept(req, stream))
    ensures Move(s, Accept(req, stream)).loop.BackingOut? <==> IsFull(lim, s, stream)
  {
    hide RequestOk, IdsMatch, HandlersOf;
    if LimitFor(lim, stream) != UNLIMITED {
      CountIsExact(s, req, stream);
      EmitNumbered(s, Accept(req, stream));
    }
  }

  lemma StepFate(lim: Limits, s: State, step: Step, k: nat, f: Fate)
    requires Inv(s) && HasLimits(lim, s) && Enabled(s, step) && FateOk(lim, s, k, f)
    ensures FateOk(lim, Apply(s, step), k, Next(lim, s, step, k, f))
  {
    assert k < |s.received| ==> RequestOk(s, k);
    if step.Accept? {
      RefusesWhenFull(lim, s, step.req, step.stream);
    }
    if step.Dispatch? {
      DispatchesUnanswered(s);
    }
    EmitNumbered(s, step);
    EmitFate(lim, s, step, k, f);
    EmitKeeps(s, step, k);
    EmitKeeps(s, step, 0);
    AcceptEmitsNothing(s, step);
    hide Emit, Move, Enabled, WriteOf, InOnePlace, KindOk, FateOk, Next, IsFull, RequestOk, SlotsAgree, IdsMatch;
    MoveFate(lim, Emit(s, WriteOf(s, step)), step, k, f);
  }

  lemma AcceptEmitsNothing(s: State, step: Step)
    requires Numbered(s) && Enabled(s, step)
    ensures step.Accept? ==> Emit(s, WriteOf(s, step)) == s
    ensures var s1 := Emit(s, WriteOf(s, step));
            s1.loop == s.loop && s1.answers == s.answers && s1.singles == s.singles && s1.streams == s.streams
  {
    EmitNumbered(s, step);
  }

  lemma DispatchesUnanswered(s: State)
    requires Inv(s) && Enabled(s, Dispatch)
    ensures s.loop.k !in s.answers
  {
    assert RequestOk(s, s.loop.k);
  }

  lemma RunInv(lim: Limits, steps: seq<Step>)
    requires IsRun(lim, steps)
    ensures Inv(End(lim, steps)) && HasLimits(lim, End(lim, steps))
  {
    StartInv(lim.single, lim.stream);
    ExecInv(Initial(lim.single, lim.stream), steps);
    hide Inv, Exec;
  }

  lemma {:induction false} RunFate(lim: Limits, steps: seq<Step>, k: nat)
    requires IsRun(lim, steps)
    ensures FateOk(lim, End(lim, steps), k, FateOf(lim, steps, k))
    decreases |steps|
  {
    if steps != [] {
      hide FateOk, Next, Inv, IsRun, End, FateOf, Apply, Enabled;
      FateSteps(lim, steps, k);
      var init := steps[..|steps| - 1];
      RunFate(lim, init, k);
      RunInv(lim, init);
      StepFate(lim, End(lim, init), steps[|steps| - 1], k, FateOf(lim, init, k));
    }
  }

  // ----- The theorems -------------------------------------------------------------------------

  /**
   Every request is answered for one cause, and as that cause demands. If its kind was full when it
   arrived it is refused: told to try again, or, if stream requests are not supported at all, told
   so by an error. If there is no handler for its operation, it gets an error that names it. Otherwise it gets what its
   handler replied, or wrote and returned. On a connection that works one of the three has happened
   to every request that the loop has done with.
   */
  lemma AnsweredForACause(lim: Limits, steps: seq<Step>, k: nat)
    requires IsRun(lim, steps) && k < |End(lim, steps).received|
    ensures var s, f := End(lim, steps), FateOf(lim, steps, k);
            && (if f.over then 1 else 0) + (if f.unhandled then 1 else 0) + (if f.served then 1 else 0) <= 1
            && (s.healthy && !Held(s, k) ==> f.over || f.unhandled || f.served)
            && (k in s.answers ==>
                 && Suits(lim, s.received[k].op, IsStream(s, k), f, s.answers[k])
                 && Wrote(s, k, AnswerContents(s.answers[k])))
            && (s.healthy && !Held(s, k) && (f.over || f.unhandled) ==> k in s.answers)
            && (s.healthy && f.served && !IsRunning(s, k) ==> k in s.answers)
  {
    RunFate(lim, steps, k);
    RunInv(lim, steps);
    assert RequestOk(End(lim, steps), k);
    hide Suits, AnswerContents, Due, Of;
  }

  /** The frames of a writer never say "try again". */
  lemma FramesNeverRetry(fs: seq<W.Frame>)
    ensures forall c :: c in Contents(fs) ==> !c.kind.Retry?
  {
  }

  lemma DueRetry(lim: Limits, s: State, k: nat, f: Fate, c: Content)
    requires FateOk(lim, s, k, f) && c in Due(s, k)
    ensures f.over ==> Due(s, k) == [c] && c == RefusedBy(lim, IsStream(s, k))
    ensures f.unhandled ==> Due(s, k) == [c] && c.kind.Failure?
    ensures c.kind.Retry? ==> f.over && !(IsStream(s, k) && lim.stream == 0)
  {
    hide Contents, W.Emitted, W.ErrorFrame, W.Trace, Ascii;
    if k in s.answers {
      if s.answers[k].Stream? {
        FramesNeverRetry(W.Trace(s.answers[k].script, s.answers[k].fail));
      }
    } else if k in s.handlers && s.handlers[k].Running? {
      FramesNeverRetry(W.Emitted(s.handlers[k].script, false));
    } else if k in s.handlers && s.handlers[k].Closing? {
      FramesNeverRetry(W.Emitted(s.handlers[k].script, false) + W.ErrorFrame(s.handlers[k].fail));
    }
  }

  /**
   On the wire, whether or not the connection still works: "try again" is said exactly to requests
   that arrived when their kind was full, except that a stream request is told an error where
   stream requests are not supported; and one without a handler gets an error.
   */
  lemma RetryMeansFull(lim: Limits, steps: seq<Step>, j: nat)
    requires IsRun(lim, steps) && j < |End(lim, steps).out|
    ensures var s := End(lim, steps); var k := s.out[j].k; var kind, f := s.out[j].r.kind, FateOf(lim, steps, k);
            && (kind.Retry? <==> f.over && !(IsStream(s, k) && lim.stream == 0))
            && (f.over && IsStream(s, k) && lim.stream == 0 ==> kind.Failure?)
            && (f.unhandled ==> kind.Failure?)
  {
    var s := End(lim, steps);
    var k := s.out[j].k;
    RunFate(lim, steps, k);
    RunInv(lim, steps);
    assert RequestOk(s, k);
    OfHolds(s.out, k, j);
    var c := Content(s.out[j].r.kind, s.out[j].r.data);
    assert c in Due(s, k) by {
      hide Due;
      assert forall x :: x in Of(s.out, k) ==> x in Due(s, k);
    }
    DueRetry(lim, s, k, FateOf(lim, steps, k), c);
    hide FateOf, FateOk, Due, Of, RequestOk;
  }

  // ----- When the loop ends -------------------------------------------------------------------

  /** A step after which the loop has ended, or will once it has given back its slot. */
  predicate EndsLoop(step: Step) {
    match step
    case Refuse(o) => !o.Written?
    case RejectUnknown(o) => !o.Written?
    case PayloadFails => true
    case PartTorn => true
    case EndLoop => true
    case _ => false
  }

  predicate Ending(s: State) {
    s.loop.Ended? || (s.loop.Unknown? && s.loop.failed)
  }

  lemma StepEnding(s: State, step: Step)
    requires Numbered(s) && Enabled(s, step)
    ensures Ending(Apply(s, step)) <==> Ending(s) || EndsLoop(step)
  {
    EmitNumbered(s, step);
    hide Emit, WriteOf, Up, Down, Refusal, Rejection;
  }

  predicate AnyEnds(steps: seq<Step>) {
    exists i :: 0 <= i < |steps| && EndsLoop(steps[i])
  }

  lemma AnyEndsSnoc(steps: seq<Step>)
    requires steps != []
    ensures AnyEnds(steps) <==> AnyEnds(steps[..|steps| - 1]) || EndsLoop(steps[|steps| - 1])
  {
    hide EndsLoop;
    var init := steps[..|steps| - 1];
    if AnyEnds(init) {
      var i :| 0 <= i < |init| && EndsLoop(init[i]);
      assert EndsLoop(steps[i]);
    }
    if i :| 0 <= i < |steps| && EndsLoop(steps[i]) && i < |init| {
      assert EndsLoop(init[i]);
    }
  }

  lemma NothingEnds(lim: Limits)
    requires IsRun(lim, [])
    ensures !Ending(End(lim, [])) && !AnyEnds([])
  {
  }

  /** The loop ends exactly if a reply of its own is not written, a payload cannot be read, or the stream ends. */
  lemma {:induction false} LoopEndsExactly(lim: Limits, steps: seq<Step>)
    requires IsRun(lim, steps)
    ensures Ending(End(lim, steps)) <==> AnyEnds(steps)
    decreases |steps|
  {
    if steps == [] {
      NothingEnds(lim);
    } else {
      hide IsRun, End, Ending, EndsLoop, AnyEnds, Apply, Enabled, FateOf, Next;
      FateSteps(lim, steps, 0);
      var init, last := steps[..|steps| - 1], steps[|steps| - 1];
      LoopEndsExactly(lim, init);
      StepEnding(End(lim, init), last);
      AnyEndsSnoc(steps);
    }
  }

  // ----- When the connection is known to work -------------------------------------------------

  /** A step in which no read and no write on the connection fails. */
  predicate IsFine(step: Step) {
    match step
    case Refuse(o) => o.Written?
    case RejectUnknown(o) => o.Written?
    case HandlerReplies(_, _, _, ok) => ok
    case StreamOp(_, _, ok) => ok
    case StreamReturns(_, _, ok) => ok
    case StreamCloses(_, ok) => ok
    case PayloadFails => false
    case PartTorn => false
    case Break => false
    case _ => true
  }

  lemma StepHealthy(s: State, step: Step)
    requires Numbered(s) && Enabled(s, step) && s.healthy && !s.dead && IsFine(step)
    ensures Apply(s, step).healthy && !Apply(s, step).dead
  {
    EmitNumbered(s, step);
    hide Refusal, Rejection, OpFrame, Up, Down;
  }

  /** As long as nothing fails the connection counts as working, so the theorems about such runs say something. */
  lemma {:induction false} FineRunsAreHealthy(lim: Limits, steps: seq<Step>)
    requires IsRun(lim, steps) && forall i :: 0 <= i < |steps| ==> IsFine(steps[i])
    ensures End(lim, steps).healthy && !End(lim, steps).dead
    decreases |steps|
  {
    if steps != [] {
      hide IsRun, End, Apply, Enabled, FateOf, Next, IsFine;
      FateSteps(lim, steps, 0);
      var init := steps[..|steps| - 1];
      FineRunsAreHealthy(lim, init);
      StepHealthy(End(lim, init), steps[|steps| - 1]);
    }
  }
}
