/**
 Staying connected (js/gotalk/keepalive.js:33-124): a state machine of callbacks that opens the
 connection again after growing delays.
 */
module KeepAlive {
  import opened Bytes

  /** Delays in milliseconds. */
  datatype Config = Config(min: int, max: int)

  /** An error passed to retry: one of the protocol's (isGotalkProtocolError), or another. */
  datatype Error = Protocol(code: int) | Other

  const TIMEOUT := 3 // ErrorTimeout

  datatype State = State(
    enabled: bool,
    isConnected: bool,
    delay: int,
    openTimer: nat,          // the timer set last; 0 if there was none
    opentime: Option<int>,
    timers: set<nat>,        // timers armed
    opens: nat,              // calls of s.open whose callback has not been called
    listeners: nat,          // s.once('close', retry) in force
    waits: nat,              // netAccess.once('online', retry) in force
    clock: int)

  datatype Step =
    | Enable
    | Disable
    | Fire(timer: nat)
    | Opened(err: Option<Error>, dt: nat, offline: bool)  // the callback of s.open
    | Closed(err: Option<Error>, dt: nat, offline: bool)  // the connection's 'close' event
    | Online(dt: nat, offline: bool)                      // the network's 'online' event

  function Initial(): State {
    State(false, false, 0, 0, None, {}, 0, 0, 0, 0)
  }

  predicate IsUnset(arg: Option<int>) {
    arg.None? || arg.value == 0
  }

  function Normalised(minArg: Option<int>, maxArg: Option<int>): Config {
    var min := if IsUnset(minArg) then 500 else if minArg.value < 100 then 100 else minArg.value;
    var max := if IsUnset(maxArg) || maxArg.value < min then 5000 else maxArg.value;
    Config(min, max)
  }

  function Min(a: int, b: int): int {
    if a < b then a else b
  }

  function Max(a: int, b: int): int {
    if a < b then b else a
  }

  function ClearTimer(s: State): State {
    s.(timers := s.timers - {s.openTimer})
  }

  function Open(s: State): State {
    ClearTimer(s).(opens := s.opens + 1)
  }

  /** A connection attempt has come to an end before. */
  predicate Timed(s: State) {
    (s.listeners > 0 || s.waits > 0 ==> s.opentime.Some?) && (s.opentime.Some? ==> s.opentime.value <= s.clock)
  }

  /** The delay before the next attempt. */
  function NextDelay(c: Config, s: State, err: Option<Error>): int
    requires err.None? ==> s.opentime.Some?
  {
    match err
    case None => Max(100, c.min - (s.clock - s.opentime.value))
    case Some(Protocol(code)) => if code == TIMEOUT then 0 else c.max
    case Some(Other) => if s.delay != 0 then Min(c.max, s.delay * 2) else c.min
  }

  function Retry(c: Config, s: State, err: Option<Error>, offline: bool): State
    requires err.None? ==> s.opentime.Some?
  {
    var s := ClearTimer(s).(isConnected := false);
    if !s.enabled then s
    else if offline then s.(waits := s.waits + 1, delay := 0)
    else
      var timer := s.openTimer + 1;
      s.(delay := NextDelay(c, s, err), openTimer := timer, timers := s.timers + {timer})
  }

  predicate Enabled(s: State, step: Step) {
    match step
    case Enable => true
    case Disable => true
    case Fire(timer) => timer in s.timers
    case Opened(_, _, _) => s.opens > 0
    case Closed(_, _, _) => s.listeners > 0
    case Online(_, _) => s.waits > 0
  }

  function Tick(s: State, dt: nat): State {
    s.(clock := s.clock + dt)
  }

  function Apply(c: Config, s: State, step: Step): State
    requires Enabled(s, step) && Timed(s)
  {
    match step
    case Enable =>
      if s.enabled then s
      else
        var s := s.(enabled := true, delay := 0);
        if s.isConnected then s else Open(s)
    case Disable => if s.enabled then ClearTimer(s).(enabled := false, delay := 0) else s
    case Fire(timer) => Open(s.(timers := s.timers - {timer}))
    case Opened(err, dt, offline) =>
      var s := Tick(s, dt).(opens := s.opens - 1, opentime := Some(s.clock + dt));
      if err.Some? then Retry(c, s, err, offline)
      else s.(delay := 0, isConnected := true, listeners := s.listeners + 1)
    case Closed(err, dt, offline) => Retry(c, Tick(s, dt).(listeners := s.listeners - 1), err, offline)
    case Online(dt, offline) => Retry(c, Tick(s, dt).(waits := s.waits - 1), None, offline)
  }

  lemma StepTimed(c: Config, s: State, step: Step)
    requires Enabled(s, step) && Timed(s)
    ensures Timed(Apply(c, s, step))
  {
  }

  function Exec(c: Config, s: State, steps: seq<Step>): (r: Option<State>)
    requires Timed(s)
    ensures r.Some? ==> Timed(r.value)
    decreases |steps|
  {
    if steps == [] then Some(s)
    else if Enabled(s, steps[0]) then
      StepTimed(c, s, steps[0]);
      Exec(c, Apply(c, s, steps[0]), steps[1..])
    else None
  }

  function After(c: Config, steps: seq<Step>): (r: Option<State>)
    ensures r.Some? ==> Timed(r.value)
  {
    Exec(c, Initial(), steps)
  }

  // ----- What every step keeps ----------------------------------------------------------------

  /** Only the timer set last may be armed, and only while enabled. */
  predicate OneTimer(s: State) {
    s.timers <= {s.openTimer} && (s.timers != {} ==> s.enabled)
  }

  predicate Sane(c: Config) {
    c.min >= 100 && c.max >= 100
  }

  predicate DelayOk(c: Config, s: State) {
    0 <= s.delay <= Max(c.min, c.max)
  }

  predicate Inv(c: Config, s: State) {
    Timed(s) && OneTimer(s) && DelayOk(c, s)
  }

  lemma StepOneTimer(c: Config, s: State, step: Step)
    requires Timed(s) && OneTimer(s) && Enabled(s, step)
    ensures OneTimer(Apply(c, s, step))
  {
    hide NextDelay;
  }

  lemma StepDelayOk(c: Config, s: State, step: Step)
    requires Sane(c) && Timed(s) && DelayOk(c, s) && Enabled(s, step)
    ensures DelayOk(c, Apply(c, s, step))
  {
  }

  lemma StepInv(c: Config, s: State, step: Step)
    requires Sane(c) && Inv(c, s) && Enabled(s, step)
    ensures Inv(c, Apply(c, s, step))
  {
    StepTimed(c, s, step);
    StepOneTimer(c, s, step);
    StepDelayOk(c, s, step);
    hide Timed, OneTimer, DelayOk, Apply, Enabled;
  }

  lemma {:induction false} ExecInv(c: Config, s: State, steps: seq<Step>)
    requires Sane(c) && Inv(c, s) && Exec(c, s, steps).Some?
    ensures Inv(c, Exec(c, s, steps).value)
    decreases |steps|
  {
    hide Enabled, Apply, OneTimer, DelayOk;
    if steps != [] {
      StepInv(c, s, steps[0]);
      ExecInv(c, Apply(c, s, steps[0]), steps[1..]);
    }
  }

  // ----- The theorems -------------------------------------------------------------------------

  /**
   The limits are those given, if they are sane, and the defaults otherwise; they are in order except
   for a large minimum without a maximum to match.
   */
  lemma ConfigIsOrdered(minArg: Option<int>, maxArg: Option<int>)
    ensures var c := Normalised(minArg, maxArg);
            && Sane(c)
            && (if IsUnset(minArg) then c.min == 500 else c.min == Max(100, minArg.value))
            && (if IsUnset(maxArg) || maxArg.value < c.min then c.max == 5000 else c.max == maxArg.value)
            && (c.min <= c.max <==> !(c.min > 5000 && (IsUnset(maxArg) || maxArg.value < c.min)))
  {
  }

  /** At most one timer is armed, only while enabled, and no attempt starts while disabled. */
  lemma TimersAreExclusive(c: Config, steps: seq<Step>, step: Step)
    requires Sane(c) && After(c, steps).Some? && Enabled(After(c, steps).value, step)
    ensures var s := After(c, steps).value; |s.timers| <= 1 && (s.timers != {} ==> s.enabled)
    ensures var s := After(c, steps).value; var s' := Apply(c, s, step); s'.opens > s.opens ==> s'.enabled
  {
    ExecInv(c, Initial(), steps);
    var s := After(c, steps).value;
    assert s.timers == {} || s.timers == {s.openTimer};
  }

  // ----- The delay, told by the events --------------------------------------------------------

  lemma {:induction false} ExecSplits(c: Config, s: State, steps: seq<Step>)
    requires Timed(s) && steps != [] && Exec(c, s, steps).Some?
    ensures var init, last := steps[..|steps| - 1], steps[|steps| - 1];
            && Exec(c, s, init).Some? && Enabled(Exec(c, s, init).value, last)
            && Exec(c, s, steps) == Some(Apply(c, Exec(c, s, init).value, last))
    decreases |steps|
  {
    hide Enabled, Apply, Timed;
    var init, last := steps[..|steps| - 1], steps[|steps| - 1];
    StepTimed(c, s, steps[0]);
    if |steps| == 1 {
      assert init == [] && steps[1..] == [];
      assert Exec(c, Apply(c, s, last), []) == Some(Apply(c, s, last));
    } else {
      assert init[1..] == steps[1..][..|steps| - 2];
      ExecSplits(c, Apply(c, s, steps[0]), steps[1..]);
    }
  }

  /** enable() has been called, and disable() not since. */
  predicate IsOn(steps: seq<Step>) {
    steps != [] &&
    var last := steps[|steps| - 1];
    last.Enable? || (!last.Disable? && IsOn(steps[..|steps| - 1]))
  }

  /** What the delay is due to: errors in a row from none, a refusal by the protocol, or a clean close before. */
  datatype Cause = Errors(count: nat) | Refusal | CleanClose

  /** The cause after an attempt or a connection has ended. */
  function CauseAfter(on: bool, was: Cause, err: Option<Error>, offline: bool): Cause {
    if !on then was
    else if offline then Errors(0)
    else
      match err
      case None => CleanClose
      case Some(Protocol(code)) => if code == 3 then Errors(0) else Refusal
      case Some(Other) => if was.Errors? then Errors(was.count + 1) else was
  }

  function CauseOf(steps: seq<Step>): Cause {
    if steps == [] then Errors(0)
    else
      var init := steps[..|steps| - 1];
      match steps[|steps| - 1]
      case Enable => if IsOn(init) then CauseOf(init) else Errors(0)
      case Disable => if IsOn(init) then Errors(0) else CauseOf(init)
      case Fire(_) => CauseOf(init)
      case Opened(None, _, _) => Errors(0)
      case Opened(Some(e), _, offline) => CauseAfter(IsOn(init), CauseOf(init), Some(e), offline)
      case Closed(err, _, offline) => CauseAfter(IsOn(init), CauseOf(init), err, offline)
      case Online(_, offline) => CauseAfter(IsOn(init), CauseOf(init), None, offline)
  }

  /** The delay after k other errors in a row, from none. */
  function BackOff(c: Config, k: nat): int {
    if k == 0 then 0 else if k == 1 then c.min else Min(c.max, 2 * BackOff(c, k - 1))
  }

  lemma {:induction false} BackOffIsPositive(c: Config, k: nat)
    requires Sane(c) && k > 0
    ensures 100 <= BackOff(c, k) <= Max(c.min, c.max)
  {
    if k > 1 {
      BackOffIsPositive(c, k - 1);
    }
  }

  /** The delay that the cause makes. */
  predicate Makes(c: Config, cause: Cause, delay: int) {
    match cause
    case Errors(k) => delay == BackOff(c, k)
    case Refusal => delay == c.max
    case CleanClose => delay >= 100
  }

  lemma StepMakes(c: Config, s: State, init: seq<Step>, step: Step)
    requires Sane(c) && Timed(s) && Enabled(s, step) && s.enabled == IsOn(init) && Makes(c, CauseOf(init), s.delay)
    ensures var s' := Apply(c, s, step); s'.enabled == IsOn(init + [step]) && Makes(c, CauseOf(init + [step]), s'.delay)
  {
    assert (init + [step])[..|init|] == init;
    var was := CauseOf(init);
    if was.Errors? && was.count > 0 {
      BackOffIsPositive(c, was.count);
    }
    assert BackOff(c, 0) == 0 && BackOff(c, 1) == c.min;
    hide IsOn;
  }

  /**
   The delay, over every run, is what the events since it was last none demand: it backs off with
   each error in a row; a timeout, a success, a switch or a lost network starts again from none; a
   peer that refuses the protocol is given the maximum, which further errors do not change.
   */
  lemma {:induction false} DelayIsOfEvents(c: Config, steps: seq<Step>)
    requires Sane(c) && After(c, steps).Some?
    ensures var s := After(c, steps).value; s.enabled == IsOn(steps) && Makes(c, CauseOf(steps), s.delay)
    decreases |steps|
  {
    if steps != [] {
      hide Exec, Enabled, Apply, Timed, Makes, CauseOf, IsOn, Sane;
      ExecSplits(c, Initial(), steps);
      var init, last := steps[..|steps| - 1], steps[|steps| - 1];
      assert init + [last] == steps;
      DelayIsOfEvents(c, init);
      StepMakes(c, After(c, init).value, init, last);
    }
  }

  /** Whenever an attempt or a connection ends while enabled and online, exactly one timer is armed. */
  lemma FailureArmsTimer(c: Config, steps: seq<Step>, step: Step)
    requires Sane(c) && After(c, steps).Some? && Enabled(After(c, steps).value, step) && IsOn(steps)
    requires (step.Opened? && step.err.Some?) || step.Closed? || step.Online?
    ensures var s := Apply(c, After(c, steps).value, step);
            if step.offline then s.timers == {} && s.waits > 0 else s.timers == {s.openTimer}
  {
    DelayIsOfEvents(c, steps);
    ExecInv(c, Initial(), steps);
    var s := After(c, steps).value;
    assert s.timers == {} || s.timers == {s.openTimer};
    hide IsOn, CauseOf, Exec, NextDelay;
  }

  function Pow2(k: nat): nat {
    if k == 0 then 1 else 2 * Pow2(k - 1)
  }

  lemma {:induction false} BackOffDoubles(c: Config, k: nat)
    requires 0 < c.min <= c.max && k > 0
    ensures BackOff(c, k) == Min(c.max, c.min * Pow2(k - 1))
  {
    if k > 1 {
      BackOffDoubles(c, k - 1);
      assert c.min * Pow2(k - 1) == 2 * (c.min * Pow2(k - 2));
    } else {
      assert Pow2(0) == 1;
    }
  }

  /** The delay doubles with each error in a row up to the maximum, which it never exceeds. */
  predicate IsExponential(c: Config, steps: seq<Step>)
    requires After(c, steps).Some?
  {
    var s, cause := After(c, steps).value, CauseOf(steps);
    && s.delay <= c.max
    && (cause.Errors? && cause.count > 0 ==> s.delay == Min(c.max, c.min * Pow2(cause.count - 1)))
  }

  /** It does so over every run exactly if the limits are in order. */
  lemma DelayIsExponential(c: Config)
    requires Sane(c)
    ensures c.min <= c.max <==> forall steps: seq<Step> :: After(c, steps).Some? ==> IsExponential(c, steps)
  {
    if c.min <= c.max {
      forall steps: seq<Step> | After(c, steps).Some?
        ensures IsExponential(c, steps)
      {
        ExecInv(c, Initial(), steps);
        DelayIsOfEvents(c, steps);
        if CauseOf(steps).Errors? && CauseOf(steps).count > 0 {
          BackOffDoubles(c, CauseOf(steps).count);
        }
      }
    } else {
      var steps := [Enable, Opened(Some(Other), 0, false)];
      FirstError(c);
      assert !IsExponential(c, steps);
    }
  }

  lemma FirstError(c: Config)
    ensures var r := After(c, [Enable, Opened(Some(Other), 0, false)]);
            r.Some? && r.value.delay == c.min
  {
    var steps := [Enable, Opened(Some(Other), 0, false)];
    var s := Apply(c, Initial(), Enable);
    assert steps[1..] == [steps[1]] && steps[1..][1..] == [];
    assert Enabled(s, steps[1]);
    assert Exec(c, Apply(c, s, steps[1]), []) == Some(Apply(c, s, steps[1]));
  }

  /**
   After a clean close the next attempt comes as soon as it may: 100 ms from now at least, and the
   minimum delay after the end of the last attempt at least.
   */
  lemma CleanCloseIsSpaced(c: Config, steps: seq<Step>, dt: nat)
    requires Sane(c) && After(c, steps).Some?
    requires var s := After(c, steps).value; s.enabled && s.listeners > 0
    ensures var s := Apply(c, After(c, steps).value, Closed(None, dt, false));
            && s.timers == {s.openTimer} && s.opentime.Some?
            && s.delay >= 100 && s.clock + s.delay >= s.opentime.value + c.min
            && (s.delay == 100 || s.clock + s.delay == s.opentime.value + c.min)
  {
    ExecInv(c, Initial(), steps);
    StepInv(c, After(c, steps).value, Closed(None, dt, false));
  }

  // ----- One connection at a time -------------------------------------------------------------

  /** Attempts under way, connections up, attempts waiting for the network, and timers armed. */
  function Tokens(s: State): nat {
    s.opens + s.listeners + s.waits + |s.timers|
  }

  predicate Single(s: State) {
    Tokens(s) <= 1 && (s.isConnected <==> s.listeners == 1)
  }

  /** enable() opens a connection only when no attempt of an earlier enable() is left over. */
  predicate Calm(s: State, step: Step) {
    step.Enable? && !s.enabled && !s.isConnected ==> s.opens == 0 && s.waits == 0
  }

  lemma TimerCount(s: State)
    requires OneTimer(s)
    ensures |s.timers| == if s.openTimer in s.timers then 1 else 0
    ensures ClearTimer(s).timers == {}
  {
    assert s.timers == {} || s.timers == {s.openTimer};
  }

  /** There is never more than one of them, exactly until enable() is called while one is left over. */
  lemma StepSingle(c: Config, s: State, step: Step)
    requires Inv(c, s) && Single(s) && Enabled(s, step)
    ensures Calm(s, step) ==> Single(Apply(c, s, step))
    ensures !Calm(s, step) ==> Tokens(Apply(c, s, step)) == 2
  {
    TimerCount(s);
    var s' := Apply(c, s, step);
    assert s'.timers == {} || s'.timers == {s'.openTimer};
  }

  predicate AllCalm(c: Config, s: State, steps: seq<Step>)
    requires Timed(s)
    decreases |steps|
  {
    || steps == []
    || (&& Enabled(s, steps[0]) && Calm(s, steps[0])
        && (StepTimed(c, s, steps[0]); AllCalm(c, Apply(c, s, steps[0]), steps[1..])))
  }

  lemma {:induction false} ExecSingle(c: Config, s: State, steps: seq<Step>)
    requires Sane(c) && Inv(c, s) && Single(s) && Exec(c, s, steps).Some? && AllCalm(c, s, steps)
    ensures Single(Exec(c, s, steps).value)
    decreases |steps|
  {
    hide Enabled, Apply, OneTimer, DelayOk, Single, Calm;
    if steps != [] {
      StepInv(c, s, steps[0]);
      StepSingle(c, s, steps[0]);
      ExecSingle(c, Apply(c, s, steps[0]), steps[1..]);
    }
  }

  /**
   As long as every enable() that opens a connection finds no attempt left over, there is at most
   one attempt or connection at a time; the first that finds one makes it two.
   */
  lemma OneConnection(c: Config, steps: seq<Step>, step: Step)
    requires Sane(c) && After(c, steps).Some? && AllCalm(c, Initial(), steps)
    requires Enabled(After(c, steps).value, step)
    ensures Tokens(After(c, steps).value) <= 1
    ensures Tokens(Apply(c, After(c, steps).value, step)) <= 1 <==> Calm(After(c, steps).value, step)
  {
    ExecInv(c, Initial(), steps);
    ExecSingle(c, Initial(), steps);
    StepSingle(c, After(c, steps).value, step);
  }

  /** There is a connection, or something under way to one. */
  predicate Trying(s: State) {
    && (s.isConnected ==> s.listeners > 0)
    && (s.enabled ==> s.opens > 0 || s.listeners > 0 || s.waits > 0 || s.timers != {})
  }

  lemma StepTrying(c: Config, s: State, step: Step)
    requires Timed(s) && Trying(s) && Enabled(s, step)
    ensures Trying(Apply(c, s, step))
  {
    hide NextDelay;
    var s' := Apply(c, s, step);
    assert s'.openTimer > s.openTimer ==> s'.openTimer in s'.timers;
  }

  lemma {:induction false} ExecTrying(c: Config, s: State, steps: seq<Step>)
    requires Timed(s) && Trying(s) && Exec(c, s, steps).Some?
    ensures Trying(Exec(c, s, steps).value)
    decreases |steps|
  {
    hide Enabled, Apply, Timed, Trying;
    if steps != [] {
      StepTimed(c, s, steps[0]);
      StepTrying(c, s, steps[0]);
      ExecTrying(c, Apply(c, s, steps[0]), steps[1..]);
    }
  }

  /** It never gives up: while enabled there is a connection, an attempt, a timer for one or a wait for the network. */
  lemma NeverGivesUp(c: Config, steps: seq<Step>)
    requires After(c, steps).Some? && IsOn(steps) && Sane(c)
    ensures Tokens(After(c, steps).value) >= 1
  {
    DelayIsOfEvents(c, steps);
    ExecTrying(c, Initial(), steps);
  }

  /** Switching off and on again during an attempt starts a second one. */
  lemma TogglingMakesTwo(c: Config)
    ensures var r := After(c, [Enable, Disable, Enable]);
            r.Some? && r.value.opens == 2
  {
    var steps := [Enable, Disable, Enable];
    var s1 := Apply(c, Initial(), Enable);
    var s2 := Apply(c, s1, Disable);
    assert steps[1..] == [Disable, Enable] && steps[1..][1..] == [Enable] && steps[1..][1..][1..] == [];
    assert Exec(c, s1, [Disable, Enable]) == Exec(c, s2, [Enable]);
    assert Exec(c, Apply(c, s2, Enable), []) == Some(Apply(c, s2, Enable));
  }

  // ----- The code -----------------------------------------------------------------------------

  class Keeper {
    const c: Config
    var enabled: bool
    var isConnected: bool
    var delay: int
    var openTimer: nat
    var opentime: Option<int>
    var timers: set<nat>
    var opens: nat
    var listeners: nat
    var waits: nat
    var clock: int

    constructor (minArg: Option<int>, maxArg: Option<int>)
      ensures View() == Initial() && c == Normalised(minArg, maxArg)
    {
      var min, max := 0, 0;
      if minArg.None? || minArg.value == 0 {
        min := 500;
      } else if minArg.value < 100 {
        min := 100;
      } else {
        min := minArg.value;
      }
      if maxArg.None? || maxArg.value == 0 || maxArg.value < min {
        max := 5000;
      } else {
        max := maxArg.value;
      }
      c := Config(min, max);
      enabled, isConnected, delay, openTimer, opentime := false, false, 0, 0, None;
      timers, opens, listeners, waits, clock := {}, 0, 0, 0, 0;
    }

    ghost function View(): State
      reads this
    {
      State(enabled, isConnected, delay, openTimer, opentime, timers, opens, listeners, waits, clock)
    }

    method ClearTimeout()
      modifies `timers
      ensures timers == old(timers) - {openTimer}
    {
      timers := timers - {openTimer};
    }

    method SetTimeout() returns (timer: nat)
      modifies `timers
      ensures timer == openTimer + 1 && timers == old(timers) + {timer}
    {
      timer := openTimer + 1;
      timers := timers + {timer};
    }

    method StartOpen()
      modifies `timers, `opens
      ensures View() == Open(old(View()))
    {
      ClearTimeout();
      opens := opens + 1;
    }

    method TurnOn()
      requires Timed(View())
      modifies this
      ensures View() == Apply(c, old(View()), Enable)
    {
      if !enabled {
        enabled := true;
        delay := 0;
        if !isConnected {
          StartOpen();
        }
      }
    }

    method TurnOff()
      requires Timed(View())
      modifies this
      ensures View() == Apply(c, old(View()), Disable)
    {
      if enabled {
        ClearTimeout();
        enabled := false;
        delay := 0;
      }
    }

    method OnRetry(err: Option<Error>, offline: bool)
      requires err.None? ==> opentime.Some?
      modifies this
      ensures View() == Retry(c, old(View()), err, offline)
    {
      ClearTimeout();
      isConnected := false;
      if !enabled {
        return;
      }
      if offline {
        waits := waits + 1;
        delay := 0;
        return;
      }
      if err.Some? {
        if err.value.Protocol? {
          if err.value.code == TIMEOUT {
            delay := 0;
          } else {
            delay := c.max;
          }
        } else {
          delay := if delay != 0 then Min(c.max, delay * 2) else c.min;
        }
      } else {
        delay := Max(100, c.min - (clock - opentime.value));
      }
      openTimer := SetTimeout();
    }

    method OnOpened(err: Option<Error>, dt: nat, offline: bool)
      requires Timed(View()) && opens > 0
      modifies this
      ensures View() == Apply(c, old(View()), Opened(err, dt, offline))
    {
      clock := clock + dt;
      opens := opens - 1;
      opentime := Some(clock);
      if err.Some? {
        OnRetry(err, offline);
      } else {
        delay := 0;
        isConnected := true;
        listeners := listeners + 1;
      }
    }

    method OnTimer(timer: nat)
      requires Timed(View()) && timer in timers
      modifies this
      ensures View() == Apply(c, old(View()), Fire(timer))
    {
      timers := timers - {timer};
      StartOpen();
    }

    method OnClosed(err: Option<Error>, dt: nat, offline: bool)
      requires Timed(View()) && listeners > 0
      modifies this
      ensures View() == Apply(c, old(View()), Closed(err, dt, offline))
    {
      clock := clock + dt;
      listeners := listeners - 1;
      OnRetry(err, offline);
    }

    method OnOnline(dt: nat, offline: bool)
      requires Timed(View()) && waits > 0
      modifies this
      ensures View() == Apply(c, old(View()), Online(dt, offline))
    {
      clock := clock + dt;
      waits := waits - 1;
      OnRetry(None, offline);
    }
  }
}
