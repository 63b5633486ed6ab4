/** The imperative codec: MakeMsg, MakeHeartbeatMsg, readn and ReadMsg (protocol.go). */
module Codec {
  import opened Bytes
  import opened Hex
  import opened Protocol
  import Fixnum

  // ----- Writing ------------------------------------------------------------------------------

  /** CopyFixnum behind the bytes written so far. */
  method PutFixnum(b: array<byte>, z: nat, ndigits: nat, n: nat, ghost head: seq<byte>)
    requires 0 < ndigits && n < Pow16(ndigits) && z + ndigits <= b.Length && b[..z] == head
    modifies b
    ensures b[..z + ndigits] == head + Fixed(n, ndigits)
  {
    Fixnum.CopyFixnum(b, z, ndigits, n);
    assert b[..z + ndigits] == b[..][..z + ndigits];
  }

  /** Go's copy, behind the bytes written so far. */
  method Copy(b: array<byte>, z: nat, text: seq<byte>, ghost head: seq<byte>)
    requires z + |text| <= b.Length && b[..z] == head
    modifies b
    ensures b[..z + |text|] == head + text
  {
    forall i | 0 <= i < |text| {
      b[z + i] := text[i];
    }
  }

  method PutSize(b: array<byte>, z: nat, size: nat, ghost head: seq<byte>)
    requires size < Pow16(8) && z + 8 <= b.Length && b[..z] == head
    modifies b
    ensures b[..z + 8] == head + Fixed(size, 8)
  {
    if size == 0 {
      FixedZero(8);
      Copy(b, z, Repeat(ZERO, 8), head);
    } else {
      PutFixnum(b, z, 8, size, head);
    }
  }

  method PutName(b: array<byte>, z: nat, name3: seq<byte>, ghost head: seq<byte>)
    requires 0 < |name3| < 0x1000 && z + 3 + |name3| <= b.Length
    requires b[..z] == head
    modifies b
    ensures b[..z + 3 + |name3|] == head + NameField(name3)
  {
    hide Fixed, Pow16;
    Widths();
    PutFixnum(b, z, 3, |name3|, head);
    Copy(b, z + 3, name3, head + Fixed(|name3|, 3));
    assert head + Fixed(|name3|, 3) + name3 == head + NameField(name3);
  }

  method MakeMsg(t: byte, id: seq<byte>, name3: seq<byte>, wait: nat, size: nat) returns (msg: seq<byte>)
    requires Encodable(Header(t, id, name3, wait, size))
    ensures msg == Encode(Header(t, id, name3, wait, size))
  {
    hide Fixed, NameField, Pow16;
    Widths();
    var bz := 9;
    var name3z := 0;
    if t == RETRY_RES {
      bz := 21;
    } else {
      if id != [] {
        bz := bz + 4;
      }
      name3z := |name3|;
      if name3z != 0 {
        bz := bz + 3 + name3z;
      }
    }

    var b := new byte[bz](i => 0);
    b[0] := t;
    var z := 1;
    if id != [] {
      Copy(b, z, id[..4], [t]);
      z := z + 4;
    }
    ghost var head := [t] + (if id == [] then [] else id[..4]);
    assert b[..z] == head;

    EmptyName(head);
    if name3z != 0 {
      PutName(b, z, name3, head);
      z := z + 3 + name3z;
    }

    if t == RETRY_RES {
      PutFixnum(b, z, 8, wait, head);
      z := z + 8;
    }

    PutSize(b, z, size, Prefix(Header(t, id, name3, wait, size)));
    msg := b[..z + 8];
  }

  lemma EmptyName(head: seq<byte>)
    ensures head + NameField([]) == head
  {
  }

  /** The clock is a parameter here; b is the caller's scratch buffer. */
  method MakeHeartbeatMsg(load: nat, time: nat, b: array<byte>) returns (msg: seq<byte>)
    requires load < 0x1_0000 && time < TWO_32 && b.Length >= 13
    modifies b
    ensures msg == EncodeHeartbeat(load, time)
    ensures b[..] == msg + old(b[13..])
  {
    Widths();
    b[0] := HEARTBEAT;
    var z := 1;
    assert b[..z] == [HEARTBEAT];
    Fixnum.CopyFixnum(b, z, 4, load);
    z := z + 4;
    assert b[..z] == [HEARTBEAT] + Fixed(load, 4);
    Fixnum.CopyFixnum(b, z, 8, time);
    assert b[13..] == old(b[13..]);
    msg := b[0..13];
    assert msg == [HEARTBEAT] + Fixed(load, 4) + Fixed(time, 8);
  }

  // ----- Reading ------------------------------------------------------------------------------

  /**
   The receiving side of a connection: the bytes that will arrive on it and how it then ends.
   A read hands out any non-empty chunk, or reports the end alone.
   */
  class Conn {
    const data: seq<byte>
    const end: End
    var pos: nat

    constructor (data: seq<byte>, end: End)
      ensures Valid() && this.data == data && this.end == end && pos == 0
    {
      this.data, this.end, pos := data, end, 0;
    }

    ghost predicate Valid()
      reads this
    {
      pos <= |data|
    }

    function Remaining(): seq<byte>
      reads this
      requires Valid()
    {
      data[pos..]
    }

    method Read(b: array<byte>, lo: nat, hi: nat) returns (z: nat, err: Option<ReadError>)
      requires Valid() && lo < hi <= b.Length
      modifies `pos, b
      ensures Valid() && pos == old(pos) + z
      ensures err == (if old(pos) == |data| then Some(Ended(end)) else None)
      ensures if err.None? then 1 <= z <= hi - lo else z == 0
      ensures b[..] == old(b[..lo]) + data[old(pos)..pos] + old(b[lo + z..])
    {
      if pos == |data| {
        z, err := 0, Some(Ended(end));
      } else {
        z :| 1 <= z <= hi - lo && pos + z <= |data|;
        err := None;
        forall i | 0 <= i < z {
          b[lo + i] := data[pos + i];
        }
        pos := pos + z;
      }
    }
  }

  /** Two consecutive chunks written behind each other are one chunk. */
  lemma Stitch(b0: seq<byte>, b1: seq<byte>, b2: seq<byte>, d: seq<byte>, lo: nat, i: nat, j: nat, k: nat)
    requires i <= j <= k <= |d| && lo + (k - i) <= |b0|
    requires b1 == b0[..lo] + d[i..j] + b0[lo + (j - i)..]
    requires b2 == b1[..lo + (j - i)] + d[j..k] + b1[lo + (k - i)..]
    ensures b2 == b0[..lo] + d[i..k] + b0[lo + (k - i)..]
  {
    assert d[i..k] == d[i..j] + d[j..k];
    assert b1[..lo + (j - i)] == b0[..lo] + d[i..j];
    assert b1[lo + (k - i)..] == b0[lo + (k - i)..];
    assert b0[..lo] + d[i..j] + d[j..k] == b0[..lo] + d[i..k];
  }

  /**
   Fills b[lo..hi] from the connection, however it chunks its bytes; stops short only at the
   end of the stream.
   */
  method Readn(s: Conn, b: array<byte>, lo: nat, hi: nat) returns (p: nat, err: Option<ReadError>)
    requires s.Valid() && lo <= hi <= b.Length
    modifies s`pos, b
    ensures s.Valid() && s.pos == old(s.pos) + p
    ensures if hi - lo <= |s.data| - old(s.pos)
            then err.None? && p == hi - lo
            else err == Some(Ended(s.end)) && p == |s.data| - old(s.pos)
    ensures b[..] == old(b[..lo]) + s.data[old(s.pos)..s.pos] + old(b[lo + p..])
  {
    p := 0;
    err := None;
    var n := hi - lo;
    while p < n
      invariant err.None? && s.Valid() && p <= n && s.pos == old(s.pos) + p
      invariant b[..] == old(b[..lo]) + s.data[old(s.pos)..s.pos] + old(b[lo + p..])
      decreases n - p
    {
      ghost var was, at := b[..], s.pos;
      var z;
      z, err := s.Read(b, lo + p, hi);
      Stitch(old(b[..]), was, b[..], s.data, lo, old(s.pos), at, s.pos);
      p := p + z;
      if err.Some? {
        return;
      }
    }
  }

  /** The result of ReadMsg as one value: the header it returns, or the error, and the bytes it took. */
  function AsParsed(h: Header, err: Option<ReadError>, used: nat): Parsed {
    match err
    case None => Msg(h, used)
    case Some(e) => Err(e, used)
  }

  /** The first n bytes read since position `from` are at the front of the buffer. */
  ghost predicate Buffered(s: Conn, from: nat, b: array<byte>, n: nat)
    reads s, b
  {
    && from + n <= |s.data| && n <= b.Length
    && s.pos == from + n
    && b[..n] == s.data[from..from + n]
  }

  lemma SliceOfSlice(a: seq<byte>, lo: nat, hi: nat, i: nat, j: nat)
    requires lo <= hi <= |a| && i <= j <= hi - lo
    ensures a[lo..hi][i..j] == a[lo + i..lo + j] == a[lo..][i..j]
  {
    assert forall k :: 0 <= k < j - i ==> a[lo..hi][i..j][k] == a[lo..hi][i + k] == a[lo + i + k];
    assert forall k :: 0 <= k < j - i ==> a[lo..][i..j][k] == a[lo..][i + k] == a[lo + i + k];
  }

  lemma BufferedSlice(s: Conn, from: nat, b: array<byte>, n: nat, i: nat, j: nat)
    requires Buffered(s, from, b, n) && i <= j <= n
    ensures b[i..j] == s.data[from..][i..j]
  {
    SliceOfSlice(s.data, from, from + n, i, j);
    SliceOfSlice(b[..], 0, n, i, j);
    assert b[..][0..n] == b[..n];
  }

  /** Grows a buffer that holds readz bytes to newz bytes if need be, and fills it up to there. */
  method ReadMore(s: Conn, ghost from: nat, buf: array<byte>, readz: nat, newz: nat)
    returns (b: array<byte>, err: Option<ReadError>)
    requires Buffered(s, from, buf, readz)
    modifies s`pos, buf
    ensures s.Valid() && s.pos >= old(s.pos)
    ensures var n := if newz > readz then newz else readz;
            if from + n <= |s.data|
            then err.None? && newz <= b.Length && Buffered(s, from, b, n)
            else err == Some(Ended(s.end)) && s.pos == |s.data|
  {
    b := buf;
    err := None;
    if b.Length < newz {
      var newb := new byte[newz](i => 0);
      forall i | 0 <= i < b.Length {
        newb[i] := b[i];
      }
      b := newb;
    }
    assert b[..readz] == old(buf[..readz]);
    if newz > readz {
      var p;
      p, err := Readn(s, b, readz, newz);
      assert s.data[from..s.pos] == s.data[from..from + readz] + s.data[from + readz..s.pos];
    }
  }

  /** The name part of ReadMsg: name size, rest of the message, name. */
  method ReadName(s: Conn, ghost from: nat, buf: array<byte>, z: nat)
    returns (b: array<byte>, name3: seq<byte>, err: Option<ReadError>)
    requires Buffered(s, from, buf, 13) && z + 3 <= 13
    modifies s`pos, buf
    ensures s.Valid() && s.pos >= old(s.pos)
    ensures var input := s.data[from..];
            match ParseUint(input[z..z + 3], 0x1_0000)
            case None => err == Some(Syntax) && s.pos == old(s.pos)
            case Some(n) =>
              var newz := z + 3 + n + 8;
              if newz > 13 && |input| < newz then
                err == Some(Ended(s.end)) && s.pos == |s.data|
              else
                && err.None? && name3 == input[z + 3..z + 3 + n]
                && Buffered(s, from, b, if newz > 13 then newz else 13)
  {
    b, name3, err := buf, [], None;
    BufferedSlice(s, from, b, 13, z, z + 3);
    var name3z := ParseUint(b[z..z + 3], 0x1_0000);
    var z := z + 3;
    if name3z.None? {
      err := Some(Syntax);
      return;
    }
    var newz := z + name3z.value + 8;
    b, err := ReadMore(s, from, b, 13, newz);
    if err.Some? {
      return;
    }
    BufferedSlice(s, from, b, if newz > 13 then newz else 13, z, z + name3z.value);
    name3 := b[z..z + name3z.value];
  }

  /** The wait part of ReadMsg: wait, and the eight bytes of the message that are still missing. */
  method ReadWait(s: Conn, ghost from: nat, b: array<byte>) returns (wait: nat, err: Option<ReadError>)
    requires Buffered(s, from, b, 13) && b.Length >= 21
    modifies s`pos, b
    ensures s.Valid() && s.pos >= old(s.pos)
    ensures var input := s.data[from..];
            match ParseUint(input[5..13], TWO_32)
            case None => err == Some(Syntax) && s.pos == old(s.pos)
            case Some(n) =>
              if |input| < 21 then
                err == Some(Ended(s.end)) && s.pos == |s.data|
              else
                err.None? && wait == n && Buffered(s, from, b, 21)
  {
    wait, err := 0, None;
    BufferedSlice(s, from, b, 13, 5, 13);
    var n := ParseUint(b[5..13], TWO_32);
    if n.None? {
      err := Some(Syntax);
      return;
    }
    wait := n.value;
    var p;
    p, err := Readn(s, b, 13, 21);
    assert s.data[from..s.pos] == s.data[from..from + 13] + s.data[from + 13..s.pos];
  }

  /**
   Reads one header. `buf` is scratch space; it is replaced when a name does not fit. Whatever
   chunks the connection delivers and whatever the buffer held, the result and the bytes
   consumed are those of ReadHeader on the bytes that were left.
   */
  method ReadMsg(s: Conn, buf: array<byte>) returns (h: Header, err: Option<ReadError>)
    requires s.Valid() && buf.Length >= 21
    modifies s`pos, buf
    ensures s.Valid() && s.pos >= old(s.pos)
    ensures AsParsed(h, err, s.pos - old(s.pos)) == ReadHeader(old(s.Remaining()), s.end)
  {
    ghost var from := s.pos;
    h := Header(0, [], [], 0, 0);
    var readz;
    readz, err := Readn(s, buf, 0, 13);
    assert Buffered(s, from, buf, readz);
    if err.Some? {
      if err == Some(Ended(Eof)) && readz >= 9 && buf[0] == PROTOCOL_ERROR {
        err := None;
      } else {
        return;
      }
    }
    h, err := ReadFields(s, from, buf, readz);
  }

  /** The type, and the load of a heartbeat or the request id of the types that have one. */
  method ReadLead(s: Conn, ghost from: nat, b: array<byte>, readz: nat)
    returns (h: Header, z: nat, err: Option<ReadError>)
    requires Buffered(s, from, b, readz) && FirstReadOk(s.data[from..], s.end)
    requires readz == if |s.data| - from < 13 then |s.data| - from else 13
    ensures var input, t := s.data[from..], s.data[from];
            if t == HEARTBEAT then
              match ParseUint(input[1..5], 0x1_0000)
              case None => err == Some(Syntax)
              case Some(load) => err.None? && h == Header(t, [], [], load, 0) && z == 5
            else
              && err.None? && h == Header(t, if HasId(t) then input[1..5] else [], [], 0, 0)
              && z == if HasId(t) then 5 else 1
  {
    err := None;
    var t := b[0];
    assert t == b[..readz][0] == s.data[from];
    z := 1;
    h := Header(t, [], [], 0, 0);
    if t == HEARTBEAT {
      BufferedSlice(s, from, b, readz, 1, 5);
      var n := ParseUint(b[z..z + 4], 0x1_0000);
      z := z + 4;
      if n.None? {
        err := Some(Syntax);
        return;
      }
      h := h.(wait := n.value);
    } else if t != NOTIFICATION && t != PROTOCOL_ERROR {
      BufferedSlice(s, from, b, readz, 1, 5);
      h := h.(id := b[z..z + 4]);
      z := z + 4;
    }
  }

  /** The payload size (or time, or error code) that ends every header. */
  method ReadSizeField(s: Conn, ghost from: nat, b: array<byte>, ghost readTo: nat, h0: Header, z: nat)
    returns (h: Header, err: Option<ReadError>)
    requires Buffered(s, from, b, readTo) && z + 8 <= readTo
    ensures AsParsed(h, err, readTo) == ReadSize(h0, s.data[from..][z..z + 8], readTo)
  {
    h, err := h0, None;
    BufferedSlice(s, from, b, readTo, z, z + 8);
    var n := ParseUint(b[z..z + 8], TWO_32);
    if n.None? {
      err := Some(Syntax);
      return;
    }
    h := h.(size := n.value);
  }

  method ReadNamedMsg(s: Conn, ghost from: nat, buf: array<byte>, h0: Header, z: nat)
    returns (h: Header, err: Option<ReadError>)
    requires Buffered(s, from, buf, 13) && z + 3 <= 13
    modifies s`pos, buf
    ensures s.Valid() && s.pos >= old(s.pos)
    ensures AsParsed(h, err, s.pos - from) == ReadNamed(s.data[from..], s.end, h0, z)
  {
    h := h0;
    var b, name3;
    b, name3, err := ReadName(s, from, buf, z);
    if err.Some? {
      return;
    }
    var z := z + 3 + |name3|;
    h, err := ReadSizeField(s, from, b, if z + 8 > 13 then z + 8 else 13, h0.(name := name3), z);
  }

  method ReadRetryMsg(s: Conn, ghost from: nat, b: array<byte>, h0: Header)
    returns (h: Header, err: Option<ReadError>)
    requires Buffered(s, from, b, 13) && b.Length >= 21
    modifies s`pos, b
    ensures s.Valid() && s.pos >= old(s.pos)
    ensures AsParsed(h, err, s.pos - from) == ReadRetry(s.data[from..], s.end, h0)
  {
    h := h0;
    var wait;
    wait, err := ReadWait(s, from, b);
    if err.Some? {
      return;
    }
    h, err := ReadSizeField(s, from, b, 21, h0.(wait := wait), 13);
  }

  /** ReadMsg behind its first read: everything from the type byte on. */
  method ReadFields(s: Conn, ghost from: nat, buf: array<byte>, readz: nat)
    returns (h: Header, err: Option<ReadError>)
    requires Buffered(s, from, buf, readz) && buf.Length >= 21
    requires FirstReadOk(s.data[from..], s.end)
    requires readz == if |s.data| - from < 13 then |s.data| - from else 13
    modifies s`pos, buf
    ensures s.Valid() && s.pos >= old(s.pos)
    ensures AsParsed(h, err, s.pos - from) == ReadHeader(s.data[from..], s.end)
  {
    var z;
    h, z, err := ReadLead(s, from, buf, readz);
    if err.Some? {
      return;
    }

    if IsNamed(h.t) {
      h, err := ReadNamedMsg(s, from, buf, h, z);
    } else if h.t == RETRY_RES {
      h, err := ReadRetryMsg(s, from, buf, h);
    } else {
      h, err := ReadSizeField(s, from, buf, readz, h, z);
    }
  }
}
