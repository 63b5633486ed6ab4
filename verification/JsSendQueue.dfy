/**
 Sending in the JavaScript peer (js/gotalk/index.js:445-516): a message goes to the WebSocket as
 one or two frames, or waits in a bounded queue until a WebSocket opens. A WebSocket may stop
 accepting frames at any moment: `budget` is the number it will still take.
 */
module JsSendQueue {
  import opened Bytes

  /** The arguments of sendMsg: a header, and a payload unless it is empty. */
  datatype Msg = Msg(head: frame, payload: Option<frame>)

  function FramesOf(m: Msg): (fs: seq<frame>)
    ensures |fs| == if m.payload.Some? then 2 else 1
  {
    if m.payload.Some? then [m.head, m.payload.value] else [m.head]
  }

  function Frames(ms: seq<Msg>): seq<frame> {
    if ms == [] then [] else FramesOf(ms[0]) + Frames(ms[1..])
  }

  lemma {:induction false} FramesAppend(ms: seq<Msg>, m: Msg)
    ensures Frames(ms + [m]) == Frames(ms) + FramesOf(m)
  {
    if ms == [] {
      assert Frames([m]) == FramesOf(m) + Frames([]);
    } else {
      assert (ms + [m])[1..] == ms[1..] + [m];
      FramesAppend(ms[1..], m);
    }
  }

  datatype State = State(
    isOpen: bool,         // _isOpen
    budget: nat,
    queue: seq<Msg>,      // _sendq
    wire: seq<frame>,     // frames taken by the current WebSocket after the version
    cut: Option<Msg>,     // history: the message of which it took the header only
    base: nat,            // history: messages handed over before the current WebSocket
    handed: seq<Msg>,     // history: messages of which all frames were taken
    accepted: seq<Msg>)   // history: messages for which Sock.sendMsg did not throw

  function Initial(): State {
    State(false, 0, [], [], None, 0, [], [])
  }

  /** Both calls of ws.send; false if one of them throws. */
  function Put(s: State, m: Msg): (State, bool) {
    var fs := FramesOf(m);
    if |fs| <= s.budget then
      (s.(wire := s.wire + fs, budget := s.budget - |fs|, handed := s.handed + [m]), true)
    else
      (s.(wire := s.wire + fs[..s.budget], budget := 0, cut := if s.budget == 1 then Some(m) else s.cut), false)
  }

  /** sendEnqueue. */
  function Enqueue(s: State, m: Msg, limit: nat): (State, bool) {
    if |s.queue| >= limit then (s, false) else (s.(queue := s.queue + [m]), true)
  }

  /** sendMsg; false if it throws. */
  function Send(s: State, m: Msg, limit: nat): (State, bool) {
    var (s', ok) := Put(s, m);
    if ok then (s', true) else Enqueue(s', m, limit)
  }

  /** The loop of flushSendq, which an exception leaves. */
  function SendAll(s: State, q: seq<Msg>, limit: nat): (State, bool)
    decreases |q|
  {
    if q == [] then (s, true)
    else
      var (s', ok) := Send(s, q[0], limit);
      if ok then SendAll(s', q[1..], limit) else (s', false)
  }

  /** _connectionStatusChange. */
  function StatusChange(s: State, isOpen: bool, limit: nat): (State, bool) {
    if s.isOpen == isOpen then (s, true)
    else if isOpen then SendAll(s.(isOpen := true, queue := []), s.queue, limit)
    else (s.(isOpen := false), true)
  }

  datatype Step =
    | SendMsg(m: Msg)
    | Opens(budget: nat)   // a WebSocket has opened: adoptWebSocket, then _connectionStatusChange(true)
    | Breaks               // the current one stops accepting frames
    | Closes               // its close event: resetSock, then _connectionStatusChange(false)

  /** One event; false if it ends in an exception. */
  function Apply(s: State, step: Step, limit: nat): (State, bool) {
    match step
    case SendMsg(m) =>
      var (s', ok) := if s.isOpen then Send(s, m, limit) else Enqueue(s, m, limit);
      (if ok then s'.(accepted := s'.accepted + [m]) else s', ok)
    case Opens(n) => StatusChange(s.(budget := n, wire := [], cut := None, base := |s.handed|), true, limit)
    case Breaks => (s.(budget := 0), true)
    case Closes => StatusChange(s.(budget := 0), false, limit)
  }

  // ----- The code -----------------------------------------------------------------------------

  class Sock {
    const limit: nat            // sendBufferLimit
    var isOpen: bool
    var budget: nat
    var sendq: seq<Msg>
    var wire: seq<frame>
    ghost var cut: Option<Msg>
    ghost var base: nat
    ghost var handed: seq<Msg>
    ghost var accepted: seq<Msg>

    constructor (limit: nat)
      ensures View() == Initial() && this.limit == limit
    {
      this.limit := limit;
      isOpen, budget, sendq, wire := false, 0, [], [];
      cut, base, handed, accepted := None, 0, [], [];
    }

    ghost function View(): State
      reads this
    {
      State(isOpen, budget, sendq, wire, cut, base, handed, accepted)
    }

    /** ws.send of one frame. */
    method WsSend(f: frame) returns (ok: bool)
      modifies `wire, `budget
      ensures ok == (old(budget) > 0)
      ensures wire == (if ok then old(wire) + [f] else old(wire))
      ensures budget == (if ok then old(budget) - 1 else 0)
    {
      ok := budget > 0;
      if ok {
        wire := wire + [f];
        budget := budget - 1;
      }
    }

    method SendEnqueue(m: Msg) returns (ok: bool)
      modifies `sendq
      ensures (View(), ok) == Enqueue(old(View()), m, limit)
    {
      if |sendq| >= limit {
        return false;
      }
      sendq := sendq + [m];
      ok := true;
    }

    method TrySend(m: Msg) returns (ok: bool)
      modifies this
      ensures (View(), ok) == Send(old(View()), m, limit)
    {
      ghost var s, fs := View(), FramesOf(m);
      assert fs[..0] == [] && s.wire + [] == s.wire;
      ok := WsSend(m.head);
      assert s.budget == 1 ==> fs[..1] == [m.head];
      if ok && m.payload.Some? {
        ok := WsSend(m.payload.value);
      }
      assert ok ==> s.wire + [m.head] + fs[1..] == s.wire + fs && |fs| <= s.budget;
      if ok {
        handed := handed + [m];
      } else {
        cut := if s.budget == 1 then Some(m) else cut;
        assert View() == Put(s, m).0;
        ok := SendEnqueue(m);
      }
    }

    method FlushSendq() returns (ok: bool)
      modifies this
      ensures (View(), ok) == SendAll(old(View()).(queue := []), old(sendq), limit)
    {
      if |sendq| == 0 {
        return true;
      }
      var q := sendq;
      sendq := [];
      ghost var start := View();
      var i := 0;
      ok := true;
      while i < |q| && ok
        invariant 0 <= i <= |q|
        invariant if ok then SendAll(View(), q[i..], limit) == SendAll(start, q, limit)
                  else (View(), false) == SendAll(start, q, limit)
        decreases |q| - i, ok
      {
        assert q[i..][1..] == q[i + 1..];
        ok := TrySend(q[i]);
        i := i + 1;
      }
    }

    method ConnectionStatusChange(open: bool) returns (ok: bool)
      modifies this
      ensures (View(), ok) == StatusChange(old(View()), open, limit)
    {
      ok := true;
      if isOpen == open {
        return;
      }
      isOpen := open;
      if isOpen {
        ok := FlushSendq();
      }
    }

    method SendMsg(m: Msg) returns (ok: bool)
      modifies this
      ensures (View(), ok) == Apply(old(View()), Step.SendMsg(m), limit)
    {
      if !isOpen {
        ok := SendEnqueue(m);
      } else {
        ok := TrySend(m);
      }
      if ok {
        accepted := accepted + [m];
      }
    }

    method OnOpen(n: nat) returns (ok: bool)
      modifies this
      ensures (View(), ok) == Apply(old(View()), Opens(n), limit)
    {
      budget, wire := n, [];
      cut, base := None, |handed|;
      ok := ConnectionStatusChange(true);
    }

    method OnClose() returns (ok: bool)
      modifies this
      ensures (View(), ok) == Apply(old(View()), Closes, limit)
    {
      budget := 0;
      ok := ConnectionStatusChange(false);
    }
  }

  // ----- Flushing -----------------------------------------------------------------------------

  /** How many of the messages a WebSocket that will take n frames takes whole. */
  function Taken(n: nat, q: seq<Msg>): (k: nat)
    ensures k <= |q|
    decreases |q|
  {
    if q == [] || n < |FramesOf(q[0])| then 0 else 1 + Taken(n - |FramesOf(q[0])|, q[1..])
  }

  lemma {:induction false} SendAllOnDead(s: State, q: seq<Msg>, limit: nat)
    requires s.budget == 0 && |s.queue| <= limit
    ensures var room := limit - |s.queue|;
            && SendAll(s, q, limit).1 == (|q| <= room)
            && SendAll(s, q, limit).0 == s.(queue := s.queue + (if |q| <= room then q else q[..room]))
    decreases |q|
  {
    if q != [] {
      assert [q[0]] + q[1..] == q;
      if |s.queue| < limit {
        var s' := s.(queue := s.queue + [q[0]]);
        assert Send(s, q[0], limit) == (s', true) by {
          assert FramesOf(q[0])[..0] == [] && s.wire + [] == s.wire;
        }
        SendAllOnDead(s', q[1..], limit);
        var room := limit - |s.queue|;
        if |q| > room {
          assert q[..room] == [q[0]] + q[1..][..room - 1];
        }
      } else {
        assert FramesOf(q[0])[..0] == [] && s.wire + [] == s.wire;
        assert s.queue + q[..0] == s.queue;
      }
    } else {
      assert s.queue + [] == s.queue;
    }
  }

  /** A WebSocket that cannot take a whole message is as good as one that has already stopped. */
  lemma SameOnDead(s: State, q: seq<Msg>, limit: nat)
    requires q != [] && s.budget < |FramesOf(q[0])|
    ensures SendAll(s, q, limit) == SendAll(Put(s, q[0]).0, q, limit)
  {
    var s' := Put(s, q[0]).0;
    assert s'.wire + FramesOf(q[0])[..0] == s'.wire;
    assert Put(s', q[0]) == (s', false);
  }

  /** What a flush of q from state s, with an empty queue, comes to when it has handed over k messages. */
  ghost predicate Flushed(s: State, q: seq<Msg>, k: nat, r: State, ok: bool, limit: nat)
    requires k <= |q|
  {
    && ok == (|q| - k <= limit)
    && r.handed == s.handed + q[..k]
    && r.queue == (if ok then q[k..] else q[k..k + limit])
    && (k < |q| ==> r.budget == 0)
    && (r.isOpen, r.base, r.accepted) == (s.isOpen, s.base, s.accepted)
  }

  lemma FlushedOneMore(s: State, s': State, q: seq<Msg>, k: nat, r: State, ok: bool, limit: nat)
    requires q != [] && k < |q| && Flushed(s', q[1..], k, r, ok, limit)
    requires s'.handed == s.handed + [q[0]]
    requires (s'.isOpen, s'.base, s'.accepted) == (s.isOpen, s.base, s.accepted)
    ensures Flushed(s, q, k + 1, r, ok, limit)
  {
    assert q[..k + 1] == [q[0]] + q[1..][..k];
    assert q[k + 1..] == q[1..][k..];
    if !ok {
      assert q[k + 1..k + 1 + limit] == q[1..][k..k + limit];
    }
  }

  /**
   What a flush does: the messages the WebSocket takes leave in order, the others are queued again
   in order as far as they fit, and the rest are lost.
   */
  lemma {:induction false} FlushOutcome(s: State, q: seq<Msg>, limit: nat)
    requires s.queue == []
    ensures Flushed(s, q, Taken(s.budget, q), SendAll(s, q, limit).0, SendAll(s, q, limit).1, limit)
    decreases |q|
  {
    hide Flushed, FramesOf;
    var (r, ok) := SendAll(s, q, limit);
    if q == [] {
      NothingFlushed(s, q, r, ok, limit);
    } else if |FramesOf(q[0])| <= s.budget {
      var s' := Put(s, q[0]).0;
      FlushOutcome(s', q[1..], limit);
      FlushedOneMore(s, s', q, Taken(s'.budget, q[1..]), r, ok, limit);
    } else {
      SameOnDead(s, q, limit);
      SendAllOnDead(Put(s, q[0]).0, q, limit);
      NothingFlushed(s, q, r, ok, limit);
    }
  }

  lemma NothingFlushed(s: State, q: seq<Msg>, r: State, ok: bool, limit: nat)
    requires ok == (|q| <= limit) && r.handed == s.handed
    requires r.queue == [] + if ok then q else q[..limit]
    requires q != [] ==> r.budget == 0
    requires (r.isOpen, r.base, r.accepted) == (s.isOpen, s.base, s.accepted)
    ensures Flushed(s, q, 0, r, ok, limit)
  {
    assert s.handed + q[..0] == s.handed;
  }

  /** A flush keeps everything, in order, exactly if what the WebSocket does not take fits into the queue. */
  lemma FlushKeepsAll(s: State, q: seq<Msg>, limit: nat)
    requires s.queue == []
    ensures var r := SendAll(s, q, limit).0;
            r.handed + r.queue == s.handed + q <==> |q| - Taken(s.budget, q) <= limit
  {
    FlushOutcome(s, q, limit);
    var k := Taken(s.budget, q);
    assert s.handed + q[..k] + q[k..] == s.handed + q;
  }

  // ----- Conservation -------------------------------------------------------------------------

  /** A WebSocket opens while the socket takes itself for closed, or has nothing queued. */
  predicate Proper(s: State, step: Step) {
    step.Opens? ==> !s.isOpen || s.queue == []
  }

  /** The current WebSocket took the messages handed over to it, and maybe a last header without its payload. */
  predicate Framed(s: State) {
    && s.base <= |s.handed|
    && s.wire == Frames(s.handed[s.base..]) + (if s.cut.Some? then [s.cut.value.head] else [])
    && (s.cut.Some? ==> s.budget == 0 && s.cut.value.payload.Some?)
  }

  predicate Inv(s: State, limit: nat) {
    && s.handed + s.queue == s.accepted
    && |s.queue| <= limit
    && (s.isOpen && s.queue != [] ==> s.budget == 0)
    && Framed(s)
  }

  lemma PutWhole(s: State, m: Msg)
    requires Framed(s) && |FramesOf(m)| <= s.budget
    ensures Framed(Put(s, m).0)
  {
    var here := s.handed[s.base..];
    FramesAppend(here, m);
    hide Frames, FramesOf;
    assert (s.handed + [m])[s.base..] == here + [m];
    assert s.wire == Frames(here) + [] == Frames(here);
  }

  lemma PutCut(s: State, m: Msg)
    requires Framed(s) && |FramesOf(m)| > s.budget
    ensures Framed(Put(s, m).0)
  {
    hide Frames;
    var fs := FramesOf(m);
    if s.budget == 0 {
      assert s.wire + fs[..0] == s.wire;
    } else {
      assert fs[..1] == [m.head];
      assert s.wire == Frames(s.handed[s.base..]) + [] == Frames(s.handed[s.base..]);
    }
  }

  lemma PutFramed(s: State, m: Msg)
    requires Framed(s)
    ensures Framed(Put(s, m).0)
  {
    hide Framed, Put, FramesOf;
    if |FramesOf(m)| <= s.budget {
      PutWhole(s, m);
    } else {
      PutCut(s, m);
    }
  }

  lemma {:induction false} SendAllFramed(s: State, q: seq<Msg>, limit: nat)
    requires Framed(s)
    ensures Framed(SendAll(s, q, limit).0)
    decreases |q|
  {
    hide Frames, FramesOf;
    if q != [] {
      PutFramed(s, q[0]);
      SendAllFramed(Send(s, q[0], limit).0, q[1..], limit);
    }
  }

  lemma OpensFramed(s: State, n: nat)
    ensures Framed(s.(budget := n, wire := [], cut := None, base := |s.handed|))
  {
    assert s.handed[|s.handed|..] == [];
  }

  lemma StepFramed(s: State, step: Step, limit: nat)
    requires Framed(s)
    ensures Framed(Apply(s, step, limit).0)
  {
    hide Frames, FramesOf;
    match step
    case SendMsg(m) => PutFramed(s, m);
    case Opens(n) =>
      var s' := s.(budget := n, wire := [], cut := None, base := |s.handed|);
      OpensFramed(s, n);
      if !s.isOpen {
        SendAllFramed(s'.(isOpen := true, queue := []), s.queue, limit);
      }
    case Breaks =>
    case Closes =>
  }

  /** What a proper opening does to a queue that keeps its limit. */
  lemma OpensFlush(s: State, n: nat, limit: nat)
    requires !s.isOpen && |s.queue| <= limit
    ensures var (r, ok), k := Apply(s, Opens(n), limit), Taken(n, s.queue);
            && ok && r.isOpen && r.accepted == s.accepted
            && r.handed == s.handed + s.queue[..k] && r.queue == s.queue[k..]
            && r.handed + r.queue == s.handed + s.queue
            && (r.queue != [] ==> r.budget == 0)
  {
    hide Framed, FramesOf;
    var s' := s.(budget := n, wire := [], cut := None, base := |s.handed|, isOpen := true, queue := []);
    FlushOutcome(s', s.queue, limit);
    var k := Taken(n, s.queue);
    assert s.handed + s.queue[..k] + s.queue[k..] == s.handed + s.queue;
  }

  lemma StepInv(s: State, step: Step, limit: nat)
    requires Inv(s, limit) && Proper(s, step)
    ensures Inv(Apply(s, step, limit).0, limit)
    ensures !step.SendMsg? ==> Apply(s, step, limit).1
  {
    hide Framed, FramesOf;
    StepFramed(s, step, limit);
    match step
    case SendMsg(m) =>
      assert s.queue == [] ==> s.handed + [m] + [] == s.handed + [m];
    case Opens(n) =>
      if !s.isOpen {
        OpensFlush(s, n, limit);
      }
    case Breaks =>
    case Closes =>
  }

  /** The state after the given events, if every opening was proper. */
  function Exec(s: State, steps: seq<Step>, limit: nat): Option<State>
    decreases |steps|
  {
    if steps == [] then Some(s)
    else if Proper(s, steps[0]) then Exec(Apply(s, steps[0], limit).0, steps[1..], limit)
    else None
  }

  lemma {:induction false} ExecInv(s: State, steps: seq<Step>, limit: nat)
    requires Inv(s, limit) && Exec(s, steps, limit).Some?
    ensures Inv(Exec(s, steps, limit).value, limit)
    decreases |steps|
  {
    hide Inv, Apply, Proper;
    if steps != [] {
      StepInv(s, steps[0], limit);
      ExecInv(Apply(s, steps[0], limit).0, steps[1..], limit);
    }
  }

  /**
   Over any number of WebSockets, however and whenever each of them breaks: what was handed over
   whole, followed by what is queued, is what sendMsg accepted, in order and without loss or
   duplication; the queue stays within its limit, so that the next flush cannot throw.
   */
  lemma SendsAreConserved(steps: seq<Step>, n: nat, limit: nat)
    requires Exec(Initial(), steps, limit).Some?
    ensures var s := Exec(Initial(), steps, limit).value;
            && s.handed + s.queue == s.accepted
            && |s.queue| <= limit
            && Framed(s)
            && (!s.isOpen ==> Apply(s, Opens(n), limit).1)
  {
    var s := Exec(Initial(), steps, limit).value;
    ExecInv(Initial(), steps, limit);
    if !s.isOpen {
      StepInv(s, Opens(n), limit);
    }
  }

  // ----- What becomes of one message ----------------------------------------------------------

  /** A WebSocket has opened, and no close has been reported since. */
  predicate IsUp(steps: seq<Step>) {
    steps != [] &&
    var last := steps[|steps| - 1];
    last.Opens? || (!last.Closes? && IsUp(steps[..|steps| - 1]))
  }

  lemma {:induction false} ExecSplits(s: State, steps: seq<Step>, limit: nat)
    requires steps != [] && Exec(s, steps, limit).Some?
    ensures var init, last := steps[..|steps| - 1], steps[|steps| - 1];
            && Exec(s, init, limit).Some?
            && Exec(s, steps, limit) == Some(Apply(Exec(s, init, limit).value, last, limit).0)
    decreases |steps|
  {
    hide Apply, Proper;
    var init, last := steps[..|steps| - 1], steps[|steps| - 1];
    if |steps| == 1 {
      assert init == [] && steps[1..] == [];
      assert Exec(Apply(s, last, limit).0, [], limit) == Some(Apply(s, last, limit).0);
    } else {
      assert init[1..] == steps[1..][..|steps| - 2];
      ExecSplits(Apply(s, steps[0], limit).0, steps[1..], limit);
    }
  }

  lemma StepIsOpen(s: State, step: Step, limit: nat)
    ensures Apply(s, step, limit).0.isOpen <==> step.Opens? || (!step.Closes? && s.isOpen)
  {
    if step.Opens? && !s.isOpen {
      var n := step.budget;
      var s' := s.(budget := n, wire := [], cut := None, base := |s.handed|, isOpen := true, queue := []);
      FlushOutcome(s', s.queue, limit);
    }
  }

  /** The socket takes itself for open exactly then. */
  lemma {:induction false} OpenIsOfEvents(steps: seq<Step>, limit: nat)
    requires Exec(Initial(), steps, limit).Some?
    ensures Exec(Initial(), steps, limit).value.isOpen <==> IsUp(steps)
    decreases |steps|
  {
    if steps != [] {
      hide Apply, Exec;
      ExecSplits(Initial(), steps, limit);
      var init := steps[..|steps| - 1];
      OpenIsOfEvents(init, limit);
      StepIsOpen(Exec(Initial(), init, limit).value, steps[|steps| - 1], limit);
    }
  }

  /** The WebSocket takes every frame of the message. */
  predicate TakesAll(s: State, m: Msg) {
    s.isOpen && s.budget >= 1 + if m.payload.Some? then 1 else 0
  }

  /**
   When sendMsg succeeds, open or closed: exactly if the WebSocket takes all frames of the message or
   there is room in the queue. It then goes to the first of the two that does, behind everything that
   is there; otherwise nothing is accepted.
   */
  lemma AcceptedExactly(s: State, m: Msg, limit: nat)
    ensures var (r, ok) := Apply(s, SendMsg(m), limit);
            && (ok <==> TakesAll(s, m) || |s.queue| < limit)
            && r.accepted == s.accepted + (if ok then [m] else [])
            && r.handed == s.handed + (if TakesAll(s, m) then [m] else [])
            && r.queue == s.queue + (if ok && !TakesAll(s, m) then [m] else [])
            && (TakesAll(s, m) ==> r.wire == s.wire + FramesOf(m))
  {
    assert s.accepted + [] == s.accepted && s.handed + [] == s.handed && s.queue + [] == s.queue;
  }

  lemma {:induction false} TakenExactly(n: nat, q: seq<Msg>, j: nat)
    requires j < |q|
    ensures j < Taken(n, q) <==> |Frames(q[..j + 1])| <= n
    decreases |q|
  {
    var t := q[..j + 1];
    assert Frames(t) == FramesOf(q[0]) + Frames(t[1..]);
    if n >= |FramesOf(q[0])| && j > 0 {
      TakenExactly(n - |FramesOf(q[0])|, q[1..], j - 1);
      assert t[1..] == q[1..][..j];
    } else if j == 0 {
      assert t[1..] == [];
    }
  }

  lemma StepKeepsAccepted(s: State, step: Step, limit: nat)
    requires Inv(s, limit) && Proper(s, step)
    ensures s.accepted <= Apply(s, step, limit).0.accepted
  {
    match step
    case SendMsg(m) => AcceptedExactly(s, m, limit);
    case Opens(n) =>
      if !s.isOpen {
        OpensFlush(s, n, limit);
      }
    case _ =>
  }

  lemma {:induction false} ExecKeepsAccepted(s: State, steps: seq<Step>, limit: nat)
    requires Inv(s, limit) && Exec(s, steps, limit).Some?
    ensures s.accepted <= Exec(s, steps, limit).value.accepted
    decreases |steps|
  {
    hide Inv, Apply, Proper;
    if steps != [] {
      StepInv(s, steps[0], limit);
      StepKeepsAccepted(s, steps[0], limit);
      ExecKeepsAccepted(Apply(s, steps[0], limit).0, steps[1..], limit);
    }
  }

  /** A WebSocket that opens takes an accepted message exactly if it takes all frames of the queue up to it. */
  lemma OpeningHandsOver(s: State, p: nat, n: nat, limit: nat)
    requires Inv(s, limit) && !s.isOpen && p < |s.accepted|
    ensures var r := Apply(s, Opens(n), limit).0;
            && r.accepted == s.accepted
            && (p < |s.handed| ==> p < |r.handed|)
            && (p >= |s.handed| ==> (p < |r.handed| <==> |Frames(s.accepted[|s.handed|..p + 1])| <= n))
            && (p < |r.handed| ==> r.handed[p] == s.accepted[p])
  {
    OpensFlush(s, n, limit);
    hide Apply;
    var z := |s.handed|;
    if p >= z {
      TakenExactly(n, s.queue, p - z);
      assert s.accepted[z..p + 1] == s.queue[..p - z + 1];
    }
  }

  lemma StartInv(limit: nat)
    ensures Inv(Initial(), limit)
  {
  }

  lemma StaysInLine(s: State, m: Msg, after: seq<Step>, n: nat, limit: nat)
    requires Inv(s, limit) && !s.isOpen && |s.queue| < limit
    requires var sent := Apply(s, SendMsg(m), limit).0;
             Exec(sent, after, limit).Some? && !Exec(sent, after, limit).value.isOpen
    ensures var (sent, ok) := Apply(s, SendMsg(m), limit);
            var t := Exec(sent, after, limit).value;
            var p, r := |s.accepted|, Apply(t, Opens(n), limit).0;
            && ok && p < |t.accepted| && t.accepted[p] == m
            && (p < |t.handed| ==> p < |r.handed|)
            && (p >= |t.handed| ==> (p < |r.handed| <==> |Frames(t.accepted[|t.handed|..p + 1])| <= n))
            && (p < |r.handed| ==> r.handed[p] == m)
  {
    hide Exec, Apply, Inv, Frames;
    var sent := Apply(s, SendMsg(m), limit).0;
    StepInv(s, SendMsg(m), limit);
    ExecInv(sent, after, limit);
    ExecKeepsAccepted(sent, after, limit);
    AcceptedExactly(s, m, limit);
    OpeningHandsOver(Exec(sent, after, limit).value, |s.accepted|, n, limit);
  }

  /**
   A message sent while there is no connection, over every run: it is accepted if the queue has room,
   stays in line whatever is sent or breaks in the meantime, and is handed over by the first
   WebSocket that takes all frames of what is in line up to it, and by none before.
   */
  lemma QueuedIsHandedOver(before: seq<Step>, m: Msg, after: seq<Step>, n: nat, limit: nat)
    requires Exec(Initial(), before, limit).Some?
    requires var s := Exec(Initial(), before, limit).value; !s.isOpen && |s.queue| < limit
    requires var s := Apply(Exec(Initial(), before, limit).value, SendMsg(m), limit).0;
             Exec(s, after, limit).Some? && !Exec(s, after, limit).value.isOpen
    ensures var s := Exec(Initial(), before, limit).value;
            var (sent, ok) := Apply(s, SendMsg(m), limit);
            var t := Exec(sent, after, limit).value;
            var p, r := |s.accepted|, Apply(t, Opens(n), limit).0;
            && ok && p < |t.accepted| && t.accepted[p] == m
            && (p < |t.handed| ==> p < |r.handed|)
            && (p >= |t.handed| ==> (p < |r.handed| <==> |Frames(t.accepted[|t.handed|..p + 1])| <= n))
            && (p < |r.handed| ==> r.handed[p] == m)
  {
    hide Exec, Apply, Inv, Frames;
    StartInv(limit);
    ExecInv(Initial(), before, limit);
    StaysInLine(Exec(Initial(), before, limit).value, m, after, n, limit);
  }

  /**
   A WebSocket that opens while the socket still takes itself for open is not flushed to: the next
   message overtakes the queue, which changes the order of all messages that differ from it.
   */
  lemma ReopenedQueueIsOvertaken(s: State, n: nat, m: Msg, limit: nat)
    requires Inv(s, limit) && !Proper(s, Opens(n)) && n >= 2
    ensures var s' := Apply(Apply(s, Opens(n), limit).0, SendMsg(m), limit).0;
            && s'.accepted == s.accepted + [m]
            && s'.handed == s.handed + [m] && s'.queue == s.queue
            && (s'.handed + s'.queue == s'.accepted <==> [m] + s.queue == s.queue + [m])
  {
    var s' := Apply(Apply(s, Opens(n), limit).0, SendMsg(m), limit).0;
    var z := |s.handed|;
    assert s'.handed + s'.queue == s.handed + ([m] + s.queue);
    assert s'.accepted == s.handed + (s.queue + [m]);
    assert (s.handed + ([m] + s.queue))[z..] == [m] + s.queue;
    assert (s.handed + (s.queue + [m]))[z..] == s.queue + [m];
  }
}
