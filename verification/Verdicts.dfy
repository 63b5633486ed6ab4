/**
 What the read loop has to do with each message and when it has to stop, told by the letter of the
 message and what the loop knows at that moment (README.md:279-325, sock.go:399-600, 758-811), and
 that it does so over every run.
 */
module Verdicts {
  import opened Bytes
  import opened Protocol
  import opened Wire
  import opened ReadLoop
  import H = Handlers

  /** A message was handled as it should be. */
  predicate Right(c: Choice, e: Event) {
    var t, a := e.m.h.t as char, e.action;
    var handled, known := H.Handles(c.handlers, t, e.m.h.name), e.m.h.id in c.streams;
    && (a == Dispatch <==> c.admit && handled && (t == 'r' || (t == 's' && !known)))
    && (a == Collide <==> t == 's' && c.admit && handled && known)
    && (a == ReplyRetry <==> !c.admit && (t == 'r' || (t == 's' && c.enabled)))
    && (a == ReplyError <==> (t == 's' && !c.admit && !c.enabled) || (t in "rs" && c.admit && !handled))
    && (a == Feed <==> t == 'p' && known)
    && (a == Respond <==> t in "RSEe")
    && (a == Notify <==> t == 'n' && handled)
    && (a == Ignore <==> t == 'n' && !handled)
    && (a == Beat <==> t == 'h')
  }

  /** The message is the last: a reply to it could not be written, or its id is taken. */
  predicate EndsWith(c: Choice, e: Event, reason: Reason) {
    || (reason == ReplyFailed && (e.action == ReplyRetry || e.action == ReplyError) && !c.replyOk)
    || (reason == IdInUse && e.action == Collide)
  }

  predicate IsLast(c: Choice, e: Event) {
    EndsWith(c, e, ReplyFailed) || EndsWith(c, e, IdInUse)
  }

  /** A header makes the loop stop before it handles the message. */
  predicate Halts(c: Choice, h: Header, reason: Reason) {
    var t := h.t as char;
    || (t == 'f' && reason == PeerError(h.size))
    || (t == 'p' && h.id !in c.streams && reason == IllegalPart)
    || (t !in "rspRSEenhf" && reason == InvalidType)
  }

  /** The bytes behind the last message are no whole message that the loop could handle, for this reason. */
  ghost predicate StopsAt(c: Choice, left: seq<byte>, end: End, reason: Reason) {
    match ReadHeader(left, end)
    case Err(e, _) => reason == StreamEnd(e)
    case Msg(h, used) =>
      || Halts(c, h, reason)
      || (&& reason == StreamEnd(Ended(end)) && |left| < used + h.size
          && h.t as char != 'h' && forall r :: !Halts(c, h, r))
  }

  lemma DecidesRightly(c: Choice, m: Message)
    ensures match Decide(c, m.h)
            case Halt(reason) => Halts(c, m.h, reason)
            case Act(a, behind) =>
              && Right(c, Event(a, m)) && (forall r :: !Halts(c, m.h, r))
              && (forall r :: behind == Some(r) <==> EndsWith(c, Event(a, m), r))
  {
    if m.h.t as char in "rsn" {
      H.FindsExactly(c.handlers, m.h.t, m.h.name);
    }
    hide H.Finds, H.Handles;
  }

  lemma RoundIsRight(c: Choice, s: seq<byte>, end: End)
    ensures var r := Round(c, s, end);
            match r.event
            case Some(ev) => Right(c, ev) && forall reason :: r.stop == Some(reason) <==> EndsWith(c, ev, reason)
            case None => StopsAt(c, s, end, r.stop.value)
  {
    if ReadHeader(s, end).Msg? {
      var h, rest := ReadHeader(s, end).h, s[ReadHeader(s, end).used..];
      DecidesRightly(c, Message(h, if h.size <= |rest| then rest[..h.size] else []));
      DecidesRightly(c, Message(h, []));
    }
    hide ReadHeader, Decide, Right, EndsWith, Halts;
  }

  /** All were handled as they should be, with what the loop knew at their turn, and none but the last ends it. */
  predicate AllRight(choices: nat -> Choice, i: nat, events: seq<Event>) {
    forall k :: 0 <= k < |events| ==>
      Right(choices(i + k), events[k]) && (k < |events| - 1 ==> !IsLast(choices(i + k), events[k]))
  }

  lemma AllRightCons(choices: nat -> Choice, i: nat, ev: Event, events: seq<Event>)
    requires Right(choices(i), ev) && AllRight(choices, i + 1, events) && (events != [] ==> !IsLast(choices(i), ev))
    ensures AllRight(choices, i, [ev] + events)
  {
    hide Right, IsLast;
    var all := [ev] + events;
    forall k | 0 <= k < |all|
      ensures Right(choices(i + k), all[k]) && (k < |all| - 1 ==> !IsLast(choices(i + k), all[k]))
    {
      if k > 0 {
        assert all[k] == events[k - 1] && i + k == i + 1 + (k - 1);
      }
    }
  }

  /**
   What the loop does, over every run: each message is answered, passed on or ignored as its letter
   and the state of the socket at its turn demand; and the loop ends exactly when a message or what
   is left of the stream makes it, for the right reason.
   */
  lemma {:induction false} RunIsRight(choices: nat -> Choice, i: nat, s: seq<byte>, end: End)
    ensures var tr := Run(choices, i, s, end);
            var n := |tr.events|;
            && AllRight(choices, i, tr.events)
            && (IsBehindMessage(tr.reason) <==> n > 0 && IsLast(choices(i + n - 1), tr.events[n - 1]))
            && (if IsBehindMessage(tr.reason) then EndsWith(choices(i + n - 1), tr.events[n - 1], tr.reason)
                else StopsAt(choices(i + n), tr.left, end, tr.reason))
    decreases |s|
  {
    hide Round, Run, Right, StopsAt;
    RunStep(choices, i, s, end);
    RoundProgress(choices(i), s, end);
    RoundIsRight(choices(i), s, end);
    var r := Round(choices(i), s, end);
    if r.event.None? {
      NeverBehind(choices(i), s, end, r.stop.value);
    } else if r.stop.Some? {
      AllRightCons(choices, i, r.event.value, []);
      assert [r.event.value] + [] == [r.event.value];
    } else {
      var rest := s[r.used..];
      RunIsRight(choices, i + 1, rest, end);
      var sub := Run(choices, i + 1, rest, end);
      assert !IsLast(choices(i), r.event.value);
      AllRightCons(choices, i, r.event.value, sub.events);
      assert i + (|sub.events| + 1) == i + 1 + |sub.events|;
    }
  }

  lemma NeverBehind(c: Choice, s: seq<byte>, end: End, reason: Reason)
    requires StopsAt(c, s, end, reason)
    ensures !IsBehindMessage(reason)
  {
    hide ReadHeader;
  }

  /** The same for the loop at the level of messages. */
  lemma {:induction false} ServeIsRight(choices: nat -> Choice, i: nat, ms: seq<Message>)
    ensures var (events, reason) := Serve(choices, i, ms);
            var n := |events|;
            && n <= |ms| && AllRight(choices, i, events)
            && (reason.None? ==> n == |ms| && (n > 0 ==> !IsLast(choices(i + n - 1), events[n - 1])))
            && (reason.Some? ==>
                 || (n > 0 && EndsWith(choices(i + n - 1), events[n - 1], reason.value))
                 || (n < |ms| && Halts(choices(i + n), ms[n].h, reason.value)))
    decreases |ms|
  {
    hide Serve, Decide, Right, Halts, EndsWith;
    ServeStep(choices, i, ms);
    if ms != [] {
      DecidesRightly(choices(i), ms[0]);
      var v := Decide(choices(i), ms[0].h);
      if v.Act? {
        var ev := Event(v.action, ms[0]);
        if v.behind.Some? {
          AllRightCons(choices, i, ev, []);
          assert [ev] + [] == [ev];
        } else {
          ServeIsRight(choices, i + 1, ms[1..]);
          var sub := Serve(choices, i + 1, ms[1..]);
          AllRightCons(choices, i, ev, sub.0);
          assert i + (|sub.0| + 1) == i + 1 + |sub.0|;
        }
      }
    }
  }
}
