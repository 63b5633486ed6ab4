/**
 The table of pending responses as Sock keeps it, under ids of four bytes (sock.go:185-203,
 566-572, 876-900): each method has the effect on the table that the matching step of Requestor
 has on a table under numbers.
 */
module ResChans {
  import opened Bytes
  import opened Protocol
  import opened Requestor

  /** What FormatRequestID gives an id for. */
  function NumberOf(id: seq<byte>): (n: nat)
    requires |id| == 4
    ensures n < TWO_32
  {
    var a: nat, b: nat, c: nat, d: nat := id[0], id[1], id[2], id[3];
    a + 0x100 * b + 0x1_0000 * c + 0x100_0000 * d
  }

  lemma DigitsAreUnique(a: byte, b: byte, c: byte, d: byte, n: nat)
    requires n == a + 0x100 * b + 0x1_0000 * c + 0x100_0000 * d
    ensures n % 256 == a && n / 256 % 256 == b && n / 65536 % 256 == c && n / 16777216 == d
  {
    assert n / 256 == b + 0x100 * c + 0x1_0000 * d;
    assert n / 65536 == c + 0x100 * d;
  }

  /** Ids of four bytes and the numbers below 2^32 are in one-to-one correspondence. */
  lemma OneToOne()
    ensures forall n: nat :: n < TWO_32 ==> NumberOf(FormatRequestID(n)) == n
    ensures forall id: seq<byte> :: |id| == 4 ==> FormatRequestID(NumberOf(id)) == id
  {
    forall n: nat | n < TWO_32
      ensures NumberOf(FormatRequestID(n)) == n
    {
      FromBytes(n);
    }
    forall id: seq<byte> | |id| == 4
      ensures FormatRequestID(NumberOf(id)) == id
    {
      DigitsAreUnique(id[0], id[1], id[2], id[3], NumberOf(id));
    }
  }

  /** The table under ids holds the calls of the table under numbers. */
  ghost predicate Represents(pendingRes: map<seq<byte>, nat>, table: map<nat, Entry>) {
    && (forall id :: id in pendingRes ==>
         |id| == 4 && NumberOf(id) in table && pendingRes[id] == table[NumberOf(id)].call)
    && (forall n :: n in table ==> n < TWO_32 && FormatRequestID(n) in pendingRes)
  }

  class ResChans {
    var nextOpID: nat                     // uint32
    var pendingRes: map<seq<byte>, nat>   // channels, named by their calls
    var calls: map<nat, Call>             // the calls that own them
    ghost var regs: nat
    ghost var table: map<nat, Entry>

    constructor ()
      ensures Valid() && Matches(Initial())
    {
      nextOpID, pendingRes, calls, regs, table := 0, map[], map[], 0, map[];
    }

    ghost predicate Valid()
      reads this
    {
      nextOpID == regs % TWO_32 && Represents(pendingRes, table)
    }

    /** What the table and the channels are in a state of the requestor. */
    ghost predicate Matches(s: State)
      reads this
    {
      s.regs == regs && s.pending == table && s.calls == calls
    }

    method RegisterResChan(ch: nat, ghost s: State) returns (id: seq<byte>)
      requires Valid() && Matches(s)
      modifies this
      ensures Valid() && Matches(Enrol(s, ch))
      ensures id == FormatRequestID(s.regs % TWO_32)
    {
      hide FormatRequestID, NumberOf, Represents;
      id := FormatRequestID(nextOpID);
      RegisterRepresents(pendingRes, table, nextOpID, Entry(ch, regs));
      table := table[nextOpID := Entry(ch, regs)];
      nextOpID := (nextOpID + 1) % TWO_32;
      pendingRes := pendingRes[id := ch];
      regs := regs + 1;
    }

    method ForgetResChan(id: seq<byte>, ghost s: State)
      requires Valid() && Matches(s) && |id| == 4
      modifies this
      ensures Valid() && Matches(ForgetId(s, NumberOf(id)))
    {
      hide FormatRequestID, NumberOf, Represents;
      ForgetRepresents(pendingRes, table, id);
      if id in pendingRes {
        pendingRes := pendingRes - {id};
      }
      assert pendingRes == old(pendingRes) - {id};
      table := table - {NumberOf(id)};
    }

    /** readResponse, once it has the payload: the channel to send to, if any. */
    method TakeResChan(kind: Kind, id: seq<byte>, data: seq<byte>, ghost s: State) returns (ch: Option<nat>)
      requires Valid() && Matches(s) && |id| == 4
      modifies this
      ensures var s' := DoTake(s, Response(kind, NumberOf(id), data));
              && Valid() && Matches(s')
              && ch == (if NumberOf(id) in s.pending then Some(s.pending[NumberOf(id)].call) else None)
    {
      hide FormatRequestID, NumberOf, Represents;
      ForgetRepresents(pendingRes, table, id);
      ch := if id in pendingRes then Some(pendingRes[id]) else None;
      if ch.Some? && !kind.Part? {
        pendingRes := pendingRes - {id};
        table := table - {NumberOf(id)};
      }
    }

    /** The loop of Close, and the table it leaves. */
    method EndAll(ghost s: State)
      requires Valid() && Matches(s) && Enabled(s, Drain)
      modifies this
      ensures Valid() && Matches(Apply(s, Drain))
    {
      hide FormatRequestID, NumberOf, Represents, Told, Notified;
      var ids := pendingRes.Keys;
      NoneTold(s, pendingRes);
      while ids != {}
        modifies `calls
        invariant ids <= pendingRes.Keys && Told(s, pendingRes, ids, calls)
        decreases ids
      {
        var id :| id in ids;
        OneMoreTold(s, pendingRes, ids, calls, id);
        var ch := pendingRes[id];
        if ch in calls {
          calls := calls[ch := Notified(calls[ch])];
        }
        ids := ids - {id};
      }
      AllTold(s, pendingRes, calls);
      pendingRes, table := map[], map[];
      NothingRepresents();
    }
  }

  lemma NothingRepresents()
    ensures Represents(map[], map[])
  {
  }

  lemma RegisterRepresents(p: map<seq<byte>, nat>, t: map<nat, Entry>, n: nat, e: Entry)
    requires Represents(p, t) && n < TWO_32
    ensures Represents(p[FormatRequestID(n) := e.call], t[n := e])
  {
    hide FormatRequestID, NumberOf;
    OneToOne();
  }

  lemma ForgetRepresents(p: map<seq<byte>, nat>, t: map<nat, Entry>, id: seq<byte>)
    requires Represents(p, t) && |id| == 4
    ensures Represents(p - {id}, t - {NumberOf(id)})
    ensures id in p <==> NumberOf(id) in t
    ensures id in p ==> p[id] == t[NumberOf(id)].call
  {
    hide FormatRequestID, NumberOf;
    OneToOne();
  }

  /** The call is in the table, under an id that is not among the given ones. */
  ghost predicate IsListed(p: map<seq<byte>, nat>, ids: set<seq<byte>>, c: nat) {
    exists id :: id in p && id !in ids && p[id] == c
  }

  /** The calls in the table have been notified, except those that are under the given ids only. */
  ghost predicate Told(s: State, p: map<seq<byte>, nat>, ids: set<seq<byte>>, calls: map<nat, Call>) {
    && calls.Keys == s.calls.Keys
    && forall c :: c in s.calls ==> calls[c] == if IsListed(p, ids, c) then Notified(s.calls[c]) else s.calls[c]
  }

  lemma NoneTold(s: State, p: map<seq<byte>, nat>)
    ensures Told(s, p, p.Keys, s.calls)
  {
  }

  /** A second notification changes nothing: the channel is full, or nobody receives any more. */
  lemma OneMoreTold(s: State, p: map<seq<byte>, nat>, ids: set<seq<byte>>, calls: map<nat, Call>, id: seq<byte>)
    requires Told(s, p, ids, calls) && id in ids && id in p
    ensures Told(s, p, ids - {id}, if p[id] in calls then calls[p[id] := Notified(calls[p[id]])] else calls)
  {
    forall c | c in s.calls
      ensures IsListed(p, ids - {id}, c) <==> IsListed(p, ids, c) || c == p[id]
    {
      if IsListed(p, ids, c) {
        var other :| other in p && other !in ids && p[other] == c;
        assert other !in ids - {id};
      }
      assert id !in ids - {id};
    }
  }

  lemma AllTold(s: State, p: map<seq<byte>, nat>, calls: map<nat, Call>)
    requires Represents(p, s.pending) && Told(s, p, {}, calls) && Enabled(s, Drain)
    ensures calls == Apply(s, Drain).calls
  {
    hide FormatRequestID, NumberOf, Notified;
    OneToOne();
    forall c | c in s.calls
      ensures IsListed(p, {}, c) <==> IsPending(s, c)
    {
      if IsListed(p, {}, c) {
        var id :| id in p && id !in {} && p[id] == c;
        assert s.pending[NumberOf(id)].call == c;
      }
      if IsPending(s, c) {
        var n :| n in s.pending && s.pending[n].call == c;
        assert p[FormatRequestID(n)] == c;
      }
    }
  }
}
