/**
 Requests in the JavaScript peer (js/gotalk/index.js:136-156, 219-231, 401-425, 540-562, 623-645):
 the table of pending responses, the ids it is indexed by, and how often each callback is called.
 Callbacks do not call back into the socket.
 */
module JsRequests {
  import opened Bytes

  // ----- Ids ----------------------------------------------------------------------------------

  const OP_IDS := 1679616   // 36^4
  const STREAM_IDS := 46656 // 36^3

  function Pow36(k: nat): (p: nat)
    ensures p > 0
  {
    if k == 0 then 1 else 36 * Pow36(k - 1)
  }

  function DigitChar(d: nat): char
    requires d < 36
  {
    if d < 10 then '0' + d as char else 'a' + (d - 10) as char
  }

  function DigitValue(c: char): int {
    if c <= '9' then c as int - '0' as int else c as int - 'a' as int + 10
  }

  /** n.toString(36). */
  function Digits(n: nat): (s: string)
    ensures s != "" && s[0] != '!'
  {
    if n < 36 then [DigitChar(n)] else Digits(n / 36) + [DigitChar(n % 36)]
  }

  function Zeroes(n: nat): (s: string)
    ensures |s| == n && forall i :: 0 <= i < n ==> s[i] == '0'
  {
    seq(n, i => '0')
  }

  /** zeroes.substr(0, k - |s|) + s. */
  function Padded(n: nat, k: nat): (s: string)
    ensures s != "" && s[0] != '!'
  {
    var s := Digits(n);
    Zeroes(if |s| < k then k - |s| else 0) + s
  }

  function OpId(n: nat): string {
    Padded(n, 4)
  }

  function StreamId(n: nat): string {
    "!" + Padded(n, 3)
  }

  function Value(s: string): int {
    if s == "" then 0 else 36 * Value(s[..|s| - 1]) + DigitValue(s[|s| - 1])
  }

  lemma {:induction false} ValueOfDigits(n: nat)
    ensures Value(Digits(n)) == n
  {
    if n >= 36 {
      ValueOfDigits(n / 36);
      assert Digits(n)[..|Digits(n)| - 1] == Digits(n / 36);
    } else {
      assert Digits(n)[..0] == "";
    }
  }

  lemma {:induction false} PaddingIsWorthless(z: nat, s: string)
    ensures Value(Zeroes(z) + s) == Value(s)
    decreases |s|, z
  {
    var t := Zeroes(z) + s;
    if s != "" {
      PaddingIsWorthless(z, s[..|s| - 1]);
      assert t[..|t| - 1] == Zeroes(z) + s[..|s| - 1];
    } else if z > 0 {
      PaddingIsWorthless(z - 1, "");
      assert t[..|t| - 1] == Zeroes(z - 1) + "";
    }
  }

  lemma {:induction false} DigitsFit(n: nat, k: nat)
    requires n < Pow36(k) && k > 0
    ensures |Digits(n)| <= k
  {
    if n >= 36 {
      assert Pow36(1) == 36 * Pow36(0);
      DigitsFit(n / 36, k - 1);
    }
  }

  lemma PaddedIsInjective(a: nat, b: nat, k: nat)
    requires Padded(a, k) == Padded(b, k)
    ensures a == b
  {
    ValueOfDigits(a);
    ValueOfDigits(b);
    PaddingIsWorthless(if |Digits(a)| < k then k - |Digits(a)| else 0, Digits(a));
    PaddingIsWorthless(if |Digits(b)| < k then k - |Digits(b)| else 0, Digits(b));
  }

  /** Ids have four characters and name one number each, and no operation has the id of a stream. */
  lemma IdsAreDistinct(a: nat, b: nat)
    ensures a < OP_IDS ==> |OpId(a)| == 4
    ensures a < STREAM_IDS ==> |StreamId(a)| == 4
    ensures OpId(a) == OpId(b) ==> a == b
    ensures StreamId(a) == StreamId(b) ==> a == b
    ensures OpId(a) != StreamId(b)
  {
    assert Pow36(0) == 1 && Pow36(1) == 36 && Pow36(2) == 1296 && Pow36(3) == STREAM_IDS && Pow36(4) == OP_IDS;
    if a < OP_IDS {
      DigitsFit(a, 4);
    }
    if a < STREAM_IDS {
      DigitsFit(a, 3);
    }
    if OpId(a) == OpId(b) {
      PaddedIsInjective(a, b, 4);
    }
    if StreamId(a) == StreamId(b) {
      assert StreamId(a)[1..] == Padded(a, 3) && StreamId(b)[1..] == Padded(b, 3);
      PaddedIsInjective(a, b, 3);
    }
    assert StreamId(b)[0] == '!';
  }

  // ----- The table ----------------------------------------------------------------------------

  /**
   A registration. num: how many ids of its kind had been issued before, since the last reset for
   operations; calls: calls of its callback; parts: those for a part of a streamed result;
   lost: its table entry was overwritten.
   */
  datatype Reg = Reg(stream: bool, num: nat, id: string, calls: nat, parts: nat, lost: bool)

  datatype State = State(
    ops: nat,                  // operation ids issued since the last reset; nextOpID is ops modulo 36^4
    streams: nat,              // nextStreamID is streams modulo 36^3
    pending: map<string, nat>, // pendingRes: the registration that a callback belongs to
    regs: seq<Reg>,
    connected: bool,           // ws is not null
    pendingClose: bool,
    closing: bool)             // ws.close has been called

  function Initial(): State {
    State(0, 0, map[], [], false, false, false)
  }

  datatype Step =
    | Request(sent: bool)                   // bufferRequest; sent: sendMsg does not throw
    | OpenStream                            // streamRequest
    | Response(part: bool, id: string)      // handleRes; part: an 'S' with a payload
    | End
    | Connect
    | Reset                                 // resetSock

  predicate Enabled(s: State, step: Step) {
    step.Response? || step.Reset? ==> s.connected
  }

  /** The id of the registration of its kind that num others precede. */
  function IdOf(stream: bool, num: nat): string {
    if stream then StreamId(num % STREAM_IDS) else OpId(num % OP_IDS)
  }

  function Register(s: State, r: Reg): State {
    s.(pending := s.pending[r.id := |s.regs|],
    regs := Lose(s, r.id) + [r])
  }

  /** The registrations once the entry for id has been overwritten. */
  function Lose(s: State, id: string): (regs: seq<Reg>)
    ensures |regs| == |s.regs|
  {
    seq(|s.regs|, i requires 0 <= i < |s.regs| =>
      if id in s.pending && s.pending[id] == i then s.regs[i].(lost := true) else s.regs[i])
  }

  function Call(regs: seq<Reg>, i: nat, part: bool): (r: seq<Reg>)
    ensures |r| == |regs|
  {
    if i < |regs| then
      regs[i := regs[i].(calls := regs[i].calls + 1, parts := regs[i].parts + if part then 1 else 0)]
    else regs
  }

  /** Its callback is in the table. */
  predicate HasEntry(regs: seq<Reg>, pending: map<string, nat>, i: nat) {
    i < |regs| && regs[i].id in pending && pending[regs[i].id] == i
  }

  function CallAll(regs: seq<Reg>, pending: map<string, nat>): (r: seq<Reg>)
    ensures |r| == |regs|
  {
    seq(|regs|, i requires 0 <= i < |regs| =>
      if HasEntry(regs, pending, i) then regs[i].(calls := regs[i].calls + 1) else regs[i])
  }

  function DoEnd(s: State): State {
    if !s.pendingClose && s.pending != map[] then s.(pendingClose := true)
    else if s.connected then s.(closing := true)
    else s
  }

  function Respond(s: State, part: bool, id: string): State {
    var s1 := if part then s else s.(pending := s.pending - {id});
    var s2 := if !part && s1.pendingClose && s1.pending == map[] then DoEnd(s1) else s1;
    if id in s.pending then s2.(regs := Call(s2.regs, s.pending[id], part)) else s2
  }

  function DoRequest(s: State, sent: bool): State {
    var r := Reg(false, s.ops, IdOf(false, s.ops), 0, 0, false);
    var s' := Register(s, r).(ops := s.ops + 1);
    if sent then s'
    else s'.(pending := s'.pending - {r.id}, regs := Call(s'.regs, |s.regs|, false))
  }

  function DoStream(s: State): State {
    Register(s, Reg(true, s.streams, IdOf(true, s.streams), 0, 0, false)).(streams := s.streams + 1)
  }

  function DoReset(s: State): State {
    s.(pendingClose := false, connected := false, closing := false, ops := 0,
    regs := CallAll(s.regs, s.pending), pending := map[])
  }

  function Apply(s: State, step: Step): State {
    match step
    case Request(sent) => DoRequest(s, sent)
    case OpenStream => DoStream(s)
    case Response(part, id) => Respond(s, part, id)
    case End => DoEnd(s)
    case Connect => s.(connected := true)
    case Reset => DoReset(s)
  }

  function Exec(s: State, steps: seq<Step>): Option<State>
    decreases |steps|
  {
    if steps == [] then Some(s)
    else if Enabled(s, steps[0]) then Exec(Apply(s, steps[0]), steps[1..])
    else None
  }

  function After(steps: seq<Step>): Option<State> {
    Exec(Initial(), steps)
  }

  // ----- What every step keeps ----------------------------------------------------------------

  /** The numbers of its kind issued so far. */
  function Issued(s: State, stream: bool): nat {
    if stream then s.streams else s.ops
  }

  predicate EntryOk(s: State, id: string) {
    id in s.pending ==>
      && s.pending[id] < |s.regs|
      && var r := s.regs[s.pending[id]];
         id == r.id == IdOf(r.stream, r.num) && r.num < Issued(s, r.stream) && !r.lost
  }

  predicate Filed(s: State) {
    forall id :: id in s.pending ==> EntryOk(s, id)
  }

  /** One call for each part, and one more when its entry leaves the table other than by being overwritten. */
  predicate RegOk(s: State, i: nat) {
    i < |s.regs| ==>
      s.regs[i].calls == s.regs[i].parts + if s.regs[i].lost || HasEntry(s.regs, s.pending, i) then 0 else 1
  }

  predicate NoneLost(s: State) {
    forall i :: 0 <= i < |s.regs| ==> !s.regs[i].lost
  }

  predicate Closes(s: State) {
    s.pendingClose && s.pending == map[] && NoneLost(s) ==> s.closing
  }

  predicate Inv(s: State) {
    Filed(s) && (forall i :: 0 <= i < |s.regs| ==> RegOk(s, i)) && Closes(s)
  }

  /** What Register does, by index. */
  lemma NewEntry(s: State, r: Reg)
    ensures var s' := Register(s, r);
            && s' == s.(pending := s.pending[r.id := |s.regs|], regs := s'.regs)
            && |s'.regs| == |s.regs| + 1 && s'.regs[|s.regs|] == r
    ensures forall i :: 0 <= i < |s.regs| ==>
              Register(s, r).regs[i] ==
              s.regs[i].(lost := s.regs[i].lost || (r.id in s.pending && s.pending[r.id] == i))
  {
  }

  lemma RequestEntryOk(s: State, sent: bool, id: string)
    requires Filed(s)
    ensures EntryOk(DoRequest(s, sent), id)
  {
    hide IdOf, Register, Lose;
    assert id in s.pending ==> EntryOk(s, id);
    NewEntry(s, Reg(false, s.ops, IdOf(false, s.ops), 0, 0, false));
  }

  lemma StreamEntryOk(s: State, id: string)
    requires Filed(s)
    ensures EntryOk(DoStream(s), id)
  {
    hide IdOf, Register, Lose;
    assert id in s.pending ==> EntryOk(s, id);
    NewEntry(s, Reg(true, s.streams, IdOf(true, s.streams), 0, 0, false));
  }

  lemma StepEntryOk(s: State, step: Step, id: string)
    requires Filed(s)
    ensures EntryOk(Apply(s, step), id)
  {
    hide IdOf, DoRequest, DoStream;
    match step
    case Request(sent) => RequestEntryOk(s, sent, id);
    case OpenStream => StreamEntryOk(s, id);
    case _ => assert id in s.pending ==> EntryOk(s, id);
  }

  lemma StepFiled(s: State, step: Step)
    requires Filed(s)
    ensures Filed(Apply(s, step))
  {
    hide Apply, EntryOk;
    forall id | id in Apply(s, step).pending {
      StepEntryOk(s, step, id);
    }
  }

  lemma RegisterRegOk(s: State, r: Reg, i: nat)
    requires Filed(s) && RegOk(s, i) && r.calls == r.parts == 0 && !r.lost
    ensures RegOk(Register(s, r), i)
  {
    assert i < |s.regs| && s.regs[i].id in s.pending ==> EntryOk(s, s.regs[i].id);
  }

  lemma RequestRegOk(s: State, sent: bool, i: nat)
    requires Filed(s) && RegOk(s, i)
    ensures RegOk(DoRequest(s, sent), i)
  {
    hide IdOf, EntryOk;
    var r := Reg(false, s.ops, IdOf(false, s.ops), 0, 0, false);
    RegisterRegOk(s, r, i);
    NewEntry(s, r);
  }

  lemma RespondRegOk(s: State, part: bool, id: string, i: nat)
    requires Filed(s) && RegOk(s, i)
    ensures RegOk(Respond(s, part, id), i)
  {
    hide IdOf;
    assert id in s.pending ==> EntryOk(s, id);
  }

  lemma ResetRegOk(s: State, i: nat)
    requires Filed(s) && RegOk(s, i)
    ensures RegOk(DoReset(s), i)
  {
    hide IdOf;
    assert i < |s.regs| && s.regs[i].id in s.pending ==> EntryOk(s, s.regs[i].id);
  }

  lemma StepRegOk(s: State, step: Step, i: nat)
    requires Filed(s) && RegOk(s, i)
    ensures RegOk(Apply(s, step), i)
  {
    hide IdOf, EntryOk, Register, DoRequest, Respond, DoReset;
    match step
    case Request(sent) => RequestRegOk(s, sent, i);
    case OpenStream =>
      var r := Reg(true, s.streams, IdOf(true, s.streams), 0, 0, false);
      RegisterRegOk(s, r, i);
      NewEntry(s, r);
    case Response(part, id) => RespondRegOk(s, part, id, i);
    case Reset => ResetRegOk(s, i);
    case _ =>
  }

  /** A registration once lost is lost for good. */
  lemma LossIsFinal(s: State, step: Step)
    requires !NoneLost(s)
    ensures !NoneLost(Apply(s, step))
  {
    hide IdOf;
    var i: nat :| i < |s.regs| && s.regs[i].lost;
    assert Apply(s, step).regs[i].lost;
  }

  lemma StepCloses(s: State, step: Step)
    requires Filed(s) && Closes(s) && Enabled(s, step)
    ensures Closes(Apply(s, step))
  {
    hide IdOf, Register, Lose;
    if !NoneLost(s) {
      LossIsFinal(s, step);
    } else if step.Request? {
      var r := Reg(false, s.ops, IdOf(false, s.ops), 0, 0, false);
      NewEntry(s, r);
      if r.id in s.pending {
        assert EntryOk(s, r.id);
        assert Apply(s, step).regs[s.pending[r.id]].lost;
      } else {
        PendingAfterFailure(s, r);
      }
    } else if step.OpenStream? {
      NewEntry(s, Reg(true, s.streams, IdOf(true, s.streams), 0, 0, false));
      assert IdOf(true, s.streams) in Apply(s, step).pending;
    }
  }

  lemma PendingAfterFailure(s: State, r: Reg)
    ensures r.id in Register(s, r).pending
    ensures r.id !in s.pending ==> Register(s, r).pending - {r.id} == s.pending
  {
  }

  lemma StepInv(s: State, step: Step)
    requires Inv(s) && Enabled(s, step)
    ensures Inv(Apply(s, step))
  {
    hide Apply, Enabled, EntryOk, Closes;
    StepFiled(s, step);
    StepCloses(s, step);
    forall i | 0 <= i < |Apply(s, step).regs|
      ensures RegOk(Apply(s, step), i)
    {
      assert RegOk(s, i);
      StepRegOk(s, step, i);
    }
  }

  lemma {:induction false} ExecInv(s: State, steps: seq<Step>)
    requires Inv(s) && Exec(s, steps).Some?
    ensures Inv(Exec(s, steps).value)
    decreases |steps|
  {
    hide Apply, Enabled, Inv;
    if steps != [] {
      StepInv(s, steps[0]);
      ExecInv(Apply(s, steps[0]), steps[1..]);
    }
  }

  // ----- The theorems -------------------------------------------------------------------------

  /**
   How often a callback is called, over any run: once for each part of a streamed result, and
   exactly once more, when its entry leaves the table, unless the entry was overwritten first.
   */
  lemma CallsAreCounted(steps: seq<Step>, i: nat)
    requires After(steps).Some? && i < |After(steps).value.regs|
    ensures var s := After(steps).value; var r := s.regs[i];
            r.calls == r.parts + if r.lost || HasEntry(s.regs, s.pending, i) then 0 else 1
  {
    ExecInv(Initial(), steps);
    assert RegOk(After(steps).value, i);
  }

  /**
   A bufferRequest is settled at most once as long as no part is sent in reply to it, and by the
   next reset exactly once, if and only if in addition its id was not issued again while it waited.
   The reset leaves nothing waiting, and no end() in force.
   */
  lemma SettledByReset(steps: seq<Step>, i: nat)
    requires After(steps).Some? && i < |After(steps).value.regs|
    ensures var s := After(steps).value; s.regs[i].parts == 0 ==> s.regs[i].calls <= 1
    ensures var r := Apply(After(steps).value, Reset).regs[i];
            && (r.parts == 0 ==> (r.calls == 1 <==> !r.lost))
            && (!r.lost ==> (r.calls == 1 <==> r.parts == 0))
    ensures var r := Apply(After(steps).value, Reset);
            r.pending == map[] && !r.pendingClose && !r.closing && !r.connected
  {
    var s := After(steps).value;
    ExecInv(Initial(), steps);
    assert RegOk(s, i);
    StepRegOk(s, Reset, i);
  }

  /** The next id issued is that of registration i again. */
  predicate Reissues(s: State, step: Step, i: nat)
    requires i < |s.regs|
  {
    var r := s.regs[i];
    || (step.Request? && !r.stream && s.ops % OP_IDS == r.num % OP_IDS)
    || (step.OpenStream? && r.stream && s.streams % STREAM_IDS == r.num % STREAM_IDS)
  }

  lemma ManyBetween(a: nat, b: nat, n: nat)
    requires a < b && n > 0 && a % n == b % n
    ensures b >= a + n
  {
    var q := b / n - a / n;
    assert b - a == n * q;
  }

  /**
   A waiting callback is lost exactly when its id is issued again, which takes all 36^4 operation
   ids, or all 36^3 stream ids, since it was registered. What is not waiting is not lost.
   */
  lemma LostExactlyOnReissue(steps: seq<Step>, step: Step, i: nat)
    requires After(steps).Some? && i < |After(steps).value.regs|
    ensures var s := After(steps).value; var r := s.regs[i];
            if HasEntry(s.regs, s.pending, i) then
              && (Apply(s, step).regs[i].lost <==> Reissues(s, step, i))
              && (Reissues(s, step, i) ==>
                   Issued(s, r.stream) >= r.num + if r.stream then STREAM_IDS else OP_IDS)
            else Apply(s, step).regs[i].lost == r.lost
  {
    hide IdOf, Apply, Reissues;
    var s := After(steps).value;
    ExecInv(Initial(), steps);
    StepLost(s, step, i);
    if HasEntry(s.regs, s.pending, i) {
      assert EntryOk(s, s.regs[i].id);
      ReissueIsSameId(s, step, i);
    }
  }

  /** The table entry for the id is that of registration i. */
  predicate Overwrites(s: State, id: string, i: nat) {
    id in s.pending && s.pending[id] == i
  }

  lemma StepLost(s: State, step: Step, i: nat)
    requires i < |s.regs|
    ensures |Apply(s, step).regs| >= |s.regs|
    ensures Apply(s, step).regs[i].lost <==>
              || s.regs[i].lost
              || (step.Request? && Overwrites(s, IdOf(false, s.ops), i))
              || (step.OpenStream? && Overwrites(s, IdOf(true, s.streams), i))
  {
    hide IdOf, Register, Lose;
    match step
    case Request(_) => NewEntry(s, Reg(false, s.ops, IdOf(false, s.ops), 0, 0, false));
    case OpenStream => NewEntry(s, Reg(true, s.streams, IdOf(true, s.streams), 0, 0, false));
    case _ =>
  }

  lemma ReissueIsSameId(s: State, step: Step, i: nat)
    requires i < |s.regs| && EntryOk(s, s.regs[i].id) && HasEntry(s.regs, s.pending, i)
    ensures var r := s.regs[i];
            && (Reissues(s, step, i) <==> (step.Request? && r.id == IdOf(false, s.ops))
                                          || (step.OpenStream? && r.id == IdOf(true, s.streams)))
            && (Reissues(s, step, i) ==> Issued(s, r.stream) >= r.num + if r.stream then STREAM_IDS else OP_IDS)
  {
    var r := s.regs[i];
    SameId(r.stream, r.num, false, s.ops);
    SameId(r.stream, r.num, true, s.streams);
    hide IdOf;
    if Reissues(s, step, i) {
      ManyBetween(r.num, Issued(s, r.stream), if r.stream then STREAM_IDS else OP_IDS);
    }
  }

  lemma SameId(stream: bool, a: nat, stream': bool, b: nat)
    ensures IdOf(stream, a) == IdOf(stream', b) <==>
              stream == stream' && (if stream then a % STREAM_IDS == b % STREAM_IDS else a % OP_IDS == b % OP_IDS)
  {
    IdsAreDistinct(a % OP_IDS, b % OP_IDS);
    IdsAreDistinct(a % STREAM_IDS, b % STREAM_IDS);
    IdsAreDistinct(a % OP_IDS, b % STREAM_IDS);
    IdsAreDistinct(b % OP_IDS, a % STREAM_IDS);
  }

  /**
   end() is graceful: after it the socket is asked to close no later than the last outstanding
   response arrives, and earlier only if end() is called a second time.
   */
  lemma EndWaitsForResponses(steps: seq<Step>, step: Step)
    requires After(steps).Some? && Enabled(After(steps).value, step)
    ensures var s := After(steps).value;
            && (s.pendingClose && NoneLost(s) && !s.closing ==> s.pending != map[])
            && (Apply(s, step).closing && !s.closing ==>
                 Apply(s, step).pending == map[] || (step.End? && s.pendingClose))
  {
    ExecInv(Initial(), steps);
  }

  lemma {:induction false} ExecSplits(s: State, steps: seq<Step>)
    requires steps != [] && Exec(s, steps).Some?
    ensures var init, last := steps[..|steps| - 1], steps[|steps| - 1];
            Exec(s, init).Some? && Exec(s, steps) == Some(Apply(Exec(s, init).value, last))
    decreases |steps|
  {
    hide Enabled, Apply;
    var init, last := steps[..|steps| - 1], steps[|steps| - 1];
    if |steps| == 1 {
      assert init == [] && steps[1..] == [];
      assert Exec(Apply(s, last), []) == Some(Apply(s, last));
    } else {
      assert init[1..] == steps[1..][..|steps| - 2];
      ExecSplits(Apply(s, steps[0]), steps[1..]);
    }
  }

  /** Requests since the last reset, and stream requests since ever. */
  function Requests(steps: seq<Step>): nat {
    if steps == [] || steps[|steps| - 1].Reset? then 0
    else Requests(steps[..|steps| - 1]) + if steps[|steps| - 1].Request? then 1 else 0
  }

  function StreamRequests(steps: seq<Step>): nat {
    if steps == [] then 0
    else StreamRequests(steps[..|steps| - 1]) + if steps[|steps| - 1].OpenStream? then 1 else 0
  }

  lemma StepIssues(s: State, step: Step)
    ensures var r := Apply(s, step);
            && r.ops == (if step.Reset? then 0 else s.ops + if step.Request? then 1 else 0)
            && r.streams == s.streams + if step.OpenStream? then 1 else 0
  {
    hide IdOf, Lose, Call, CallAll;
  }

  lemma {:induction false} IssuedInRun(steps: seq<Step>)
    requires After(steps).Some?
    ensures After(steps).value.ops == Requests(steps) && After(steps).value.streams == StreamRequests(steps)
    decreases |steps|
  {
    if steps != [] {
      hide Apply, Exec;
      ExecSplits(Initial(), steps);
      IssuedInRun(steps[..|steps| - 1]);
      StepIssues(After(steps[..|steps| - 1]).value, steps[|steps| - 1]);
    }
  }

  /** There has been a connection since the last reset. */
  predicate IsConnectedIn(steps: seq<Step>) {
    steps != [] && !steps[|steps| - 1].Reset? && (steps[|steps| - 1].Connect? || IsConnectedIn(steps[..|steps| - 1]))
  }

  lemma {:induction false} ConnectedInRun(steps: seq<Step>)
    requires After(steps).Some?
    ensures After(steps).value.connected <==> IsConnectedIn(steps)
    decreases |steps|
  {
    if steps != [] {
      hide Apply, Exec;
      ExecSplits(Initial(), steps);
      ConnectedInRun(steps[..|steps| - 1]);
      StepConnected(After(steps[..|steps| - 1]).value, steps[|steps| - 1]);
    }
  }

  lemma StepConnected(s: State, step: Step)
    ensures Apply(s, step).connected <==> !step.Reset? && (step.Connect? || s.connected)
  {
    hide IdOf, Lose, Call, CallAll;
  }

  /** A request is registered under the number of those before it, written with four digits in base 36. */
  lemma IdsCountRequests(steps: seq<Step>)
    requires After(steps).Some?
    ensures var s := After(steps).value; var r := Apply(s, OpenStream);
            |r.regs| == |s.regs| + 1 && r.regs[|s.regs|].id == "!" + Padded(StreamRequests(steps) % 46656, 3)
    ensures var s := After(steps).value; var r := Apply(s, Request(true));
            |r.regs| == |s.regs| + 1 && r.regs[|s.regs|].id == Padded(Requests(steps) % 1679616, 4)
  {
    IssuedInRun(steps);
    hide Exec, Padded;
  }

  /** end() has been called on a connection, which has not been reset since. */
  predicate Ending(s: State) {
    s.connected && (s.closing || s.pendingClose)
  }

  lemma StepEnding(s: State, step: Step)
    requires Ending(s) && step != Reset
    ensures Ending(Apply(s, step)) && (s.closing ==> Apply(s, step).closing)
  {
    hide IdOf, Lose, Call, CallAll;
  }

  lemma {:induction false} ExecEnding(s: State, steps: seq<Step>)
    requires Ending(s) && Exec(s, steps).Some? && Reset !in steps
    ensures Ending(Exec(s, steps).value) && (s.closing ==> Exec(s, steps).value.closing)
    decreases |steps|
  {
    hide Enabled, Apply, Ending;
    if steps != [] {
      assert steps[0] in steps;
      StepEnding(s, steps[0]);
      ExecEnding(Apply(s, steps[0]), steps[1..]);
    }
  }

  /**
   And end() does close: on a connection, at once if no response is outstanding or it has been called
   before, and otherwise as soon as none is, whatever is requested and answered in the meantime.
   */
  lemma EndCloses(before: seq<Step>, after: seq<Step>)
    requires After(before).Some? && After(before).value.connected
    requires Exec(Apply(After(before).value, End), after).Some? && Reset !in after
    ensures var s, r := After(before).value, Exec(Apply(After(before).value, End), after).value;
            && (s.pending == map[] || s.pendingClose ==> r.closing)
            && (NoneLost(r) && r.pending == map[] ==> r.closing)
  {
    ExecInv(Initial(), before);
    var s := After(before).value;
    StepInv(s, End);
    ExecEnding(Apply(s, End), after);
    ExecInv(Apply(s, End), after);
    hide Exec, IdOf, Filed;
  }

  // ----- The code -----------------------------------------------------------------------------

  class Sock {
    var nextOpID: nat
    var nextStreamID: nat
    var pendingRes: map<string, nat>
    var made: nat                       // callbacks made so far, which names the next one
    var connected: bool
    var pendingClose: bool
    var closing: bool
    ghost var regs: seq<Reg>
    ghost var ops: nat
    ghost var streams: nat

    constructor ()
      ensures Valid() && View() == Initial()
    {
      nextOpID, nextStreamID, pendingRes, made := 0, 0, map[], 0;
      connected, pendingClose, closing := false, false, false;
      regs, ops, streams := [], 0, 0;
    }

    ghost function View(): State
      reads this
    {
      State(ops, streams, pendingRes, regs, connected, pendingClose, closing)
    }

    ghost predicate Valid()
      reads this
    {
      && nextOpID == ops % OP_IDS && nextStreamID == streams % STREAM_IDS
      && made == |regs| && Filed(View())
    }

    /** The next id, and the step to the one after it. */
    method TakeOpID() returns (id: string)
      requires nextOpID == ops % OP_IDS
      modifies `nextOpID, `ops
      ensures id == IdOf(false, old(ops)) && ops == old(ops) + 1 && nextOpID == ops % OP_IDS
    {
      id := OpId(nextOpID);
      nextOpID := nextOpID + 1;
      if nextOpID == 1679616 {
        nextOpID := 0;
      }
      ops := ops + 1;
    }

    method BufferRequest(sent: bool)
      requires Valid()
      modifies this
      ensures Valid() && View() == Apply(old(View()), Request(sent))
    {
      hide IdOf, Filed, Lose, Call;
      StepFiled(View(), Request(sent));
      ghost var s := View();
      var id := TakeOpID();
      var k := made;
      made := made + 1;
      regs := Lose(s, id) + [Reg(false, s.ops, id, 0, 0, false)];
      pendingRes := pendingRes[id := k];
      if !sent {
        pendingRes := pendingRes - {id};
        regs := Call(regs, k, false);
      }
    }

    method StreamRequest()
      requires Valid()
      modifies this
      ensures Valid() && View() == Apply(old(View()), OpenStream)
    {
      hide OpId, StreamId, Filed, Lose;
      StepFiled(View(), OpenStream);
      var id := StreamId(nextStreamID);
      ghost var r := Reg(true, streams, id, 0, 0, false);
      nextStreamID := nextStreamID + 1;
      if nextStreamID == 46656 {
        nextStreamID := 0;
      }
      regs := Lose(View(), id) + [r];
      streams := streams + 1;
      pendingRes := pendingRes[id := made];
      made := made + 1;
    }

    method EndSock()
      modifies `pendingClose, `closing
      ensures View() == Apply(old(View()), End)
    {
      if !pendingClose && pendingRes != map[] {
        pendingClose := true;
      } else if connected {
        closing := true;
      }
    }

    method HandleRes(part: bool, id: string)
      requires Valid()
      modifies this
      ensures Valid() && View() == Apply(old(View()), Response(part, id))
    {
      hide Filed;
      StepFiled(View(), Response(part, id));
      ghost var was := pendingRes;
      var callback := if id in pendingRes then Some(pendingRes[id]) else None;
      if !part {
        pendingRes := pendingRes - {id};
        if pendingClose && pendingRes == map[] {
          EndSock();
        }
      }
      if callback.None? {
        return;
      }
      regs := Call(regs, callback.value, part);
    }

    method ResetSock()
      requires Valid()
      modifies this
      ensures Valid() && View() == Apply(old(View()), Reset)
    {
      hide OpId, StreamId, Filed, Called, CallAll;
      ghost var s := View();
      StepFiled(s, Reset);
      pendingClose, connected, closing := false, false, false;
      nextOpID, ops := 0, 0;
      var keys := pendingRes.Keys;
      NoneCalled(regs, pendingRes);
      while keys != {}
        modifies `regs
        invariant keys <= pendingRes.Keys && |regs| == |s.regs|
        invariant Called(s.regs, pendingRes, keys, regs)
        decreases keys
      {
        var k :| k in keys;
        OneMoreCalled(s, keys, regs, k);
        regs := Call(regs, pendingRes[k], false);
        keys := keys - {k};
      }
      AllCalled(s.regs, pendingRes, regs);
      pendingRes := map[];
    }
  }

  /** regs is was after the callbacks of all entries but those of the given keys have been called. */
  ghost predicate Called(was: seq<Reg>, pending: map<string, nat>, keys: set<string>, regs: seq<Reg>) {
    |regs| == |was| &&
    forall i :: 0 <= i < |was| ==>
      regs[i] == if HasEntry(was, pending, i) && was[i].id !in keys then was[i].(calls := was[i].calls + 1) else was[i]
  }

  lemma NoneCalled(was: seq<Reg>, pending: map<string, nat>)
    ensures Called(was, pending, pending.Keys, was)
  {
  }

  lemma OneMoreCalled(s: State, keys: set<string>, regs: seq<Reg>, k: string)
    requires Filed(s) && Called(s.regs, s.pending, keys, regs) && k in keys && k in s.pending
    ensures Called(s.regs, s.pending, keys - {k}, Call(regs, s.pending[k], false))
  {
    hide IdOf;
    assert EntryOk(s, k);
  }

  lemma AllCalled(was: seq<Reg>, pending: map<string, nat>, regs: seq<Reg>)
    requires Called(was, pending, {}, regs)
    ensures regs == CallAll(was, pending)
  {
  }
}
