/**
 The message codec as functions on byte sequences: what MakeMsg produces, what ReadMsg makes of
 the bytes that remain on a stream, and when the two are inverse (protocol.go:62-221).
 */
module Protocol {
  import opened Bytes
  import opened Hex

  /** A message header. For heartbeats wait is the load and size the time; for 'f' size is the code. */
  datatype Header = Header(t: byte, id: seq<byte>, name: seq<byte>, wait: nat, size: nat)

  /** How a byte stream ends once its bytes are used up: end of file, or some other failure. */
  datatype End = Eof | Broken

  datatype ReadError = Ended(end: End) | Syntax

  /** Outcome of reading one header; `used` is how many bytes were taken off the stream. */
  datatype Parsed = Msg(h: Header, used: nat) | Err(error: ReadError, used: nat)

  /** What MakeMsg accepts without running out of its own buffer. */
  predicate Encodable(h: Header) {
    && (h.id == [] || |h.id| >= 4)
    && (h.t == RETRY_RES || |h.name| < 0x1000)
    && h.wait < TWO_32
    && h.size < TWO_32
  }

  function NameField(name: seq<byte>): seq<byte>
    requires |name| < 0x1000
  {
    Widths();
    if name == [] then [] else Fixed(|name|, 3) + name
  }

  /** Everything MakeMsg writes before the final size field. */
  function Prefix(h: Header): seq<byte>
    requires Encodable(h)
  {
    Widths();
    [h.t] + (if h.id == [] then [] else h.id[..4])
    + (if h.t == RETRY_RES then Fixed(h.wait, 8) else NameField(h.name))
  }

  /** The bytes of MakeMsg (protocol.go:77-125). */
  function Encode(h: Header): (s: seq<byte>)
    requires Encodable(h)
    ensures |s| >= 9 && s[0] == h.t
  {
    Widths();
    Prefix(h) + Fixed(h.size, 8)
  }

  /** The bytes of MakeHeartbeatMsg (protocol.go:66-74). */
  function EncodeHeartbeat(load: nat, time: nat): (s: seq<byte>)
    requires load < 0x1_0000 && time < TWO_32
    ensures |s| == 13 && s[0] == HEARTBEAT
  {
    Widths();
    [HEARTBEAT] + Fixed(load, 4) + Fixed(time, 8)
  }

  // ----- Reading ------------------------------------------------------------------------------

  function ReadSize(h: Header, field: seq<byte>, used: nat): Parsed {
    match ParseUint(field, TWO_32)
    case None => Err(Syntax, used)
    case Some(n) => Msg(h.(size := n), used)
  }

  /** The rest of a header with a text3 name whose size field starts at z. */
  function ReadNamed(s: seq<byte>, end: End, h: Header, z: nat): Parsed
    requires z + 3 <= 13 <= |s|
  {
    match ParseUint(s[z..z + 3], 0x1_0000)
    case None => Err(Syntax, 13)
    case Some(namez) =>
      var newz := z + 3 + namez + 8;
      if newz > 13 && |s| < newz then
        Err(Ended(end), |s|)
      else
        ReadSize(h.(name := s[z + 3..z + 3 + namez]), s[newz - 8..newz], if newz > 13 then newz else 13)
  }

  function ReadRetry(s: seq<byte>, end: End, h: Header): Parsed
    requires 13 <= |s|
  {
    match ParseUint(s[5..13], TWO_32)
    case None => Err(Syntax, 13)
    case Some(wait) =>
      if |s| < 21 then Err(Ended(end), |s|) else ReadSize(h.(wait := wait), s[13..21], 21)
  }

  function ReadHeartbeat(s: seq<byte>, h: Header): Parsed
    requires 13 <= |s|
  {
    match ParseUint(s[1..5], 0x1_0000)
    case None => Err(Syntax, 13)
    case Some(load) => ReadSize(h.(wait := load), s[5..13], 13)
  }

  /** A speculative read of 13 bytes may come up short only for 'f' at the very end of a stream. */
  predicate FirstReadOk(s: seq<byte>, end: End) {
    |s| >= 13 || (end.Eof? && |s| >= 9 && s[0] == PROTOCOL_ERROR)
  }

  /** What ReadMsg makes of a stream with s left on it that then ends with `end`. */
  function ReadHeader(s: seq<byte>, end: End): (r: Parsed)
    ensures r.used <= |s|
    ensures r.Msg? ==> r.used >= 9 && r.h.t == s[0] && r.h.size < TWO_32
  {
    if !FirstReadOk(s, end) then
      Err(Ended(end), |s|)
    else
      var t := s[0];
      var readz := if |s| < 13 then |s| else 13;
      var h := Header(t, if HasId(t) then s[1..5] else [], [], 0, 0);
      if t == HEARTBEAT then ReadHeartbeat(s, h)
      else if t == PROTOCOL_ERROR then ReadSize(h, s[1..9], readz)
      else if t == NOTIFICATION then ReadNamed(s, end, h, 1)
      else if IsNamed(t) then ReadNamed(s, end, h, 5)
      else if t == RETRY_RES then ReadRetry(s, end, h)
      else ReadSize(h, s[5..13], 13)
  }

  // ----- The grammar of headers ---------------------------------------------------------------

  /** The hexUInt productions: digits in either case that denote n. */
  predicate IsHexField(f: seq<byte>, n: nat) {
    AllHex(f) && HexValue(f) == n
  }

  function IdSize(t: byte): nat {
    if HasId(t) then 4 else 0
  }

  function HeaderSize(h: Header): nat {
    1 + IdSize(h.t)
    + (if IsNamed(h.t) then 3 + |h.name| else 0)
    + (if h.t == RETRY_RES then 8 else 0)
    + (if h.t == HEARTBEAT then 4 else 0)
    + 8
  }

  /** c begins with the header h as the grammar spells it. */
  predicate Spells(c: seq<byte>, h: Header) {
    var n, z := HeaderSize(h), 1 + IdSize(h.t);
    && n <= |c|
    && c[0] == h.t
    && c[1..z] == h.id
    && (if IsNamed(h.t) then IsHexField(c[z..z + 3], |h.name|) && c[z + 3..z + 3 + |h.name|] == h.name
        else h.name == [])
    && (if h.t == RETRY_RES then IsHexField(c[5..13], h.wait)
        else if h.t == HEARTBEAT then IsHexField(c[1..5], h.wait)
        else h.wait == 0)
    && IsHexField(c[n - 8..n], h.size)
  }

  lemma PrefixSlice(c: seq<byte>, d: seq<byte>, i: nat, j: nat)
    requires c <= d && i <= j <= |c|
    ensures d[i..j] == c[i..j]
  {
  }

  /** A byte sequence begins with at most one header of the grammar. */
  lemma SpellsUniquely(c: seq<byte>, d: seq<byte>, h: Header, k: Header)
    requires Spells(c, h) && Spells(d, k) && c <= d
    ensures h == k
  {
    var z := 1 + IdSize(h.t);
    assert c[0] == d[0];
    PrefixSlice(c, d, 1, z);
    if IsNamed(h.t) {
      PrefixSlice(c, d, z, z + 3);
      PrefixSlice(c, d, z + 3, z + 3 + |h.name|);
    } else if h.t == RETRY_RES {
      PrefixSlice(c, d, 5, 13);
    } else if h.t == HEARTBEAT {
      PrefixSlice(c, d, 1, 5);
    }
    PrefixSlice(c, d, HeaderSize(h) - 8, HeaderSize(h));
  }

  lemma SpellsExtends(c: seq<byte>, d: seq<byte>, h: Header)
    requires Spells(c, h) && c <= d
    ensures Spells(d, h)
  {
    var n, z := HeaderSize(h), 1 + IdSize(h.t);
    PrefixSlice(c, d, 1, z);
    PrefixSlice(c, d, n - 8, n);
    if IsNamed(h.t) {
      PrefixSlice(c, d, z, z + 3);
      PrefixSlice(c, d, z + 3, z + 3 + |h.name|);
    } else if h.t == RETRY_RES {
      PrefixSlice(c, d, 5, 13);
    } else if h.t == HEARTBEAT {
      PrefixSlice(c, d, 1, 5);
    }
  }

  /** A spelled header stays spelled when bytes behind it are cut off. */
  lemma SpellsRestricts(d: seq<byte>, c: seq<byte>, h: Header)
    requires Spells(d, h) && c <= d && HeaderSize(h) <= |c|
    ensures Spells(c, h)
  {
    var n, z := HeaderSize(h), 1 + IdSize(h.t);
    PrefixSlice(c, d, 1, z);
    PrefixSlice(c, d, n - 8, n);
    if IsNamed(h.t) {
      PrefixSlice(c, d, z, z + 3);
      PrefixSlice(c, d, z + 3, z + 3 + |h.name|);
    } else if h.t == RETRY_RES {
      PrefixSlice(c, d, 5, 13);
    } else if h.t == HEARTBEAT {
      PrefixSlice(c, d, 1, 5);
    }
  }

  /** A notification without a name: its header is one byte shorter than the reader's first read. */
  predicate IsNameless(h: Header) {
    h.t == NOTIFICATION && h.name == []
  }

  lemma FieldParses(f: seq<byte>, n: nat, limit: nat)
    requires IsHexField(f, n) && f != [] && Pow16(|f|) <= limit
    ensures ParseUint(f, limit) == Some(n) && n < limit
  {
    FieldInRange(f);
  }

  /** How many of the n bytes left on a stream ReadMsg takes for the header h it finds there. */
  function TakenFor(h: Header, n: nat): nat {
    if h.t == PROTOCOL_ERROR then (if n < 13 then n else 13)
    else HeaderSize(h) + (if IsNameless(h) then 1 else 0)
  }

  /** ReadMsg understands every header of the grammar, in whatever case its digits are written. */
  lemma SpelledIsRead(c: seq<byte>, h: Header, end: End)
    requires Spells(c, h)
    ensures ReadHeader(c, end) ==
            if FirstReadOk(c, end) then Msg(h, TakenFor(h, |c|)) else Err(Ended(end), |c|)
  {
    Widths();
    var n, z := HeaderSize(h), 1 + IdSize(h.t);
    FieldParses(c[n - 8..n], h.size, TWO_32);
    if IsNamed(h.t) {
      FieldParses(c[z..z + 3], |h.name|, 0x1_0000);
    } else if h.t == RETRY_RES {
      FieldParses(c[5..13], h.wait, TWO_32);
    } else if h.t == HEARTBEAT {
      FieldParses(c[1..5], h.wait, 0x1_0000);
    }
  }

  lemma NamedReadIsSpelled(s: seq<byte>, end: End)
    requires ReadHeader(s, end).Msg? && IsNamed(s[0])
    ensures var r := ReadHeader(s, end);
            Spells(s, r.h) && r.used == TakenFor(r.h, |s|)
  {
    var r, z := ReadHeader(s, end), 1 + IdSize(s[0]);
    assert ParseUint(s[z..z + 3], 0x1_0000) == Some(|r.h.name|);
    var n := HeaderSize(r.h);
    assert ParseUint(s[n - 8..n], TWO_32) == Some(r.h.size);
  }

  /** What ReadMsg accepts is spelled by the bytes it took. */
  lemma ReadIsSpelled(s: seq<byte>, end: End)
    requires ReadHeader(s, end).Msg?
    ensures var r := ReadHeader(s, end);
            Spells(s, r.h) && r.used == TakenFor(r.h, |s|)
  {
    if IsNamed(s[0]) {
      NamedReadIsSpelled(s, end);
    }
  }

  // ----- Round trips --------------------------------------------------------------------------

  /** The headers that survive the trip through MakeMsg and ReadMsg. */
  predicate WellFormed(h: Header) {
    && h.t != HEARTBEAT && h.t != PROTOCOL_ERROR
    && |h.id| == (if HasId(h.t) then 4 else 0)
    && (if IsNamed(h.t) then 1 <= |h.name| < 0x1000 else h.name == [])
    && h.wait < (if h.t == RETRY_RES then TWO_32 else 1)
    && h.size < TWO_32
  }

  lemma EncodedField(n: nat, k: nat)
    requires n < Pow16(k)
    ensures IsHexField(Fixed(n, k), n)
  {
    FixedValue(n, k);
  }

  lemma NamedLayout(h: Header)
    requires WellFormed(h) && IsNamed(h.t)
    ensures var e, z := Encode(h), 1 + IdSize(h.t);
            && |h.name| < Pow16(3) && h.size < Pow16(8)
            && |e| == z + 3 + |h.name| + 8
            && e[z..z + 3] == Fixed(|h.name|, 3)
            && e[z + 3..z + 3 + |h.name|] == h.name
            && e[|e| - 8..|e|] == Fixed(h.size, 8)
            && e[0] == h.t && e[1..z] == h.id
  {
    Widths();
    var e, z := Encode(h), 1 + IdSize(h.t);
    var head := [h.t] + (if h.id == [] then [] else h.id[..4]);
    assert e == head + Fixed(|h.name|, 3) + h.name + Fixed(h.size, 8);
    FourParts(head, Fixed(|h.name|, 3), h.name, Fixed(h.size, 8));
    assert |head| == z && head[0] == h.t && head[1..z] == h.id;
    assert e[1..z] == head[1..z];
  }

  lemma FourParts(a: seq<byte>, b: seq<byte>, c: seq<byte>, d: seq<byte>)
    ensures var e, i, j, k := a + b + c + d, |a|, |a| + |b|, |a| + |b| + |c|;
            && |e| == k + |d|
            && e[..i] == a && e[i..j] == b && e[j..k] == c && e[k..] == d && e[k..|e|] == d
  {
  }

  lemma NamedSpells(h: Header)
    requires WellFormed(h) && IsNamed(h.t)
    ensures Spells(Encode(h), h) && |Encode(h)| == HeaderSize(h)
  {
    NamedLayout(h);
    EncodedField(|h.name|, 3);
    EncodedField(h.size, 8);
    assert |Encode(h)| == HeaderSize(h);
  }

  /** MakeMsg spells the header it is given. */
  lemma EncodeSpells(h: Header)
    requires WellFormed(h)
    ensures Spells(Encode(h), h) && |Encode(h)| == HeaderSize(h)
  {
    if IsNamed(h.t) {
      NamedSpells(h);
    } else {
      Widths();
      var e := Encode(h);
      var n := |e|;
      EncodedField(h.size, 8);
      hide Fixed, Pow16, HexValue;
      assert e[n - 8..n] == Fixed(h.size, 8);
      assert e[1..5] == h.id;
      if h.t == RETRY_RES {
        EncodedField(h.wait, 8);
        assert e[5..13] == Fixed(h.wait, 8);
      }
    }
  }

  lemma HeartbeatSpells(load: nat, time: nat)
    requires load < 0x1_0000 && time < TWO_32
    ensures Spells(EncodeHeartbeat(load, time), Header(HEARTBEAT, [], [], load, time))
  {
    Widths();
    var e := EncodeHeartbeat(load, time);
    EncodedField(load, 4);
    EncodedField(time, 8);
    assert e[1..5] == Fixed(load, 4) && e[5..13] == Fixed(time, 8);
  }

  lemma ProtocolErrorSpells(code: nat)
    requires code < TWO_32
    ensures var h := Header(PROTOCOL_ERROR, [], [], 0, code);
            Spells(Encode(h), h) && |Encode(h)| == 9
  {
    Widths();
    EncodedField(code, 8);
    assert Encode(Header(PROTOCOL_ERROR, [], [], 0, code))[1..9] == Fixed(code, 8);
  }

  /** ReadMsg undoes MakeMsg and leaves exactly the bytes that follow the header. */
  lemma ReadsBack(h: Header, rest: seq<byte>, end: End)
    requires WellFormed(h)
    ensures ReadHeader(Encode(h) + rest, end) == Msg(h, |Encode(h)|)
  {
    EncodeSpells(h);
    SpellsExtends(Encode(h), Encode(h) + rest, h);
    SpelledIsRead(Encode(h) + rest, h, end);
  }

  /** ReadMsg returns h and consumes exactly MakeMsg's bytes, whatever follows and however the stream ends. */
  ghost predicate RoundTrips(h: Header)
    requires Encodable(h)
  {
    forall rest, end :: ReadHeader(Encode(h) + rest, end) == Msg(h, |Encode(h)|)
  }

  /** The exact domain of the round trip among everything MakeMsg accepts. */
  lemma RoundTripsExactly(h: Header)
    requires Encodable(h)
    ensures RoundTrips(h) <==> WellFormed(h)
  {
    if WellFormed(h) {
      forall rest, end {
        ReadsBack(h, rest, end);
      }
    } else {
      var e := Encode(h);
      assert e + [] == e;
      assert ReadHeader(e + [], Broken) != Msg(h, |e|);
    }
  }

  lemma HeartbeatReadsBack(load: nat, time: nat, rest: seq<byte>, end: End)
    requires load < 0x1_0000 && time < TWO_32
    ensures ReadHeader(EncodeHeartbeat(load, time) + rest, end) == Msg(Header(HEARTBEAT, [], [], load, time), 13)
  {
    var e, h := EncodeHeartbeat(load, time), Header(HEARTBEAT, [], [], load, time);
    HeartbeatSpells(load, time);
    SpellsExtends(e, e + rest, h);
    SpelledIsRead(e + rest, h, end);
  }

  /**
   A protocol error is nine bytes, four fewer than the first read asks for: its code is read
   if at least four bytes follow or the stream ends in end-of-file, and lost otherwise. The
   read takes up to four bytes that follow it.
   */
  lemma ProtocolErrorReadsBack(code: nat, rest: seq<byte>, end: End)
    requires code < TWO_32
    ensures var h := Header(PROTOCOL_ERROR, [], [], 0, code);
            ReadHeader(Encode(h) + rest, end) ==
            if |rest| < 4 && end.Broken? then Err(Ended(Broken), 9 + |rest|)
            else Msg(h, if |rest| < 4 then 9 + |rest| else 13)
  {
    var h := Header(PROTOCOL_ERROR, [], [], 0, code);
    var e := Encode(h);
    ProtocolErrorSpells(code);
    SpellsExtends(e, e + rest, h);
    SpelledIsRead(e + rest, h, end);
  }

  // ----- Request ids --------------------------------------------------------------------------

  /** FormatRequestID: the four bytes of n in little-endian order (protocol.go:224-231). */
  function FormatRequestID(n: nat): (id: seq<byte>)
    requires n < TWO_32
    ensures |id| == 4
  {
    [n % 256, n / 256 % 256, n / 65536 % 256, n / 16777216]
  }

  lemma FromBytes(n: nat)
    ensures n == n % 256 + 256 * (n / 256 % 256) + 65536 * (n / 65536 % 256) + 16777216 * (n / 16777216)
  {
    assert n / 65536 == n / 256 / 256 && n / 16777216 == n / 65536 / 256;
  }
}
