/** In-place printing of fixed-width numbers (protocol.go:242-267). */
module Fixnum {
  import opened Bytes
  import opened Hex

  /** The buffer s after its window [lo, hi) moved right by n, with n pad bytes in the gap. */
  function Shifted(s: seq<byte>, lo: nat, hi: nat, n: nat, padb: byte): (r: seq<byte>)
    requires lo <= hi <= |s| && n <= hi - lo
    ensures |r| == |s|
  {
    s[..lo] + Repeat(padb, n) + s[lo..hi - n] + s[hi..]
  }

  lemma ShiftedByIndex(s: seq<byte>, r: seq<byte>, lo: nat, hi: nat, n: nat, padb: byte)
    requires lo <= hi <= |s| == |r| && n <= hi - lo
    requires forall j :: 0 <= j < lo || hi <= j < |s| ==> r[j] == s[j]
    requires forall j :: lo <= j < lo + n ==> r[j] == padb
    requires forall j :: lo + n <= j < hi ==> r[j] == s[j - n]
    ensures r == Shifted(s, lo, hi, n, padb)
  {
    assert r[..lo] == s[..lo];
    assert r[lo..lo + n] == Repeat(padb, n);
    assert r[lo + n..hi] == s[lo..hi - n];
    assert r[hi..] == s[hi..];
    assert r == r[..lo] + r[lo..lo + n] + r[lo + n..hi] + r[hi..];
  }

  /** What the first loop has done when it has come down to wi. */
  ghost predicate Moved(was: seq<byte>, now: seq<byte>, lo: nat, hi: nat, n: nat, padb: byte, wi: int)
    requires lo <= hi <= |was| == |now| && 0 < n <= hi - lo && n - 1 <= wi < hi - lo
  {
    && (forall j :: 0 <= j < lo || hi <= j < |was| ==> now[j] == was[j])
    && (forall j :: lo + wi < j < hi ==> now[j] == was[j - n])
    && (forall j :: lo + wi - n < j <= lo + wi && j < hi - n ==> now[j] == padb)
    && (forall j :: lo <= j <= lo + wi - n ==> now[j] == was[j])
  }

  lemma MovedOneMore(was: seq<byte>, now: seq<byte>, lo: nat, hi: nat, n: nat, padb: byte, wi: int)
    requires lo <= hi <= |was| == |now| && 0 < n <= wi < hi - lo && Moved(was, now, lo, hi, n, padb, wi)
    ensures Moved(was, now[lo + wi := now[lo + wi - n]][lo + wi - n := padb], lo, hi, n, padb, wi - 1)
  {
  }

  /** The first loop: moves bytes up from the end, overwriting its own source as it goes. */
  method MoveUp(b: array<byte>, lo: nat, hi: nat, n: nat, padb: byte) returns (wi: int)
    requires lo <= hi <= b.Length && 0 < n <= hi - lo
    modifies b
    ensures wi == n - 1 && Moved(old(b[..]), b[..], lo, hi, n, padb, wi)
  {
    wi := hi - lo - 1;
    assert Moved(b[..], b[..], lo, hi, n, padb, wi);
    hide Moved;
    while wi >= n
      invariant n - 1 <= wi < hi - lo && Moved(old(b[..]), b[..], lo, hi, n, padb, wi)
    {
      MovedOneMore(old(b[..]), b[..], lo, hi, n, padb, wi);
      ghost var next := b[..][lo + wi := b[lo + wi - n]][lo + wi - n := padb];
      b[lo + wi] := b[lo + wi - n];
      b[lo + wi - n] := padb;
      assert b[..] == next;
      wi := wi - 1;
    }
  }

  /** The second loop: pads what the first did not reach. */
  method PadRest(b: array<byte>, lo: nat, hi: nat, n: nat, padb: byte, from: int, ghost was: seq<byte>)
    requires lo <= hi <= b.Length == |was| && 0 < n <= hi - lo
    requires from == n - 1 && Moved(was, b[..], lo, hi, n, padb, from)
    modifies b
    ensures b[..] == Shifted(was, lo, hi, n, padb)
  {
    var wi := from;
    var zn := hi - lo - n - 1;
    while wi > zn
      invariant -1 <= wi <= n - 1
      invariant forall j :: 0 <= j < lo || hi <= j < b.Length ==> b[j] == was[j]
      invariant forall j :: lo + n <= j < hi ==> b[j] == was[j - n]
      invariant forall j :: lo <= j < lo + n && (lo + wi < j || j <= lo + zn) ==> b[j] == padb
    {
      b[lo + wi] := padb;
      wi := wi - 1;
    }
    ShiftedByIndex(was, b[..], lo, hi, n, padb);
  }

  /** Shifts the window b[lo..hi] right by n bytes and fills the gap with padb. */
  method RShiftSlice(b: array<byte>, lo: nat, hi: nat, n: nat, padb: byte)
    requires lo <= hi <= b.Length && n <= hi - lo
    modifies b
    ensures b[..] == Shifted(old(b[..]), lo, hi, n, padb)
  {
    hide Moved;
    if n != 0 {
      var wi := MoveUp(b, lo, hi, n, padb);
      PadRest(b, lo, hi, n, padb, wi, old(b[..]));
    } else {
      ShiftedByIndex(b[..], b[..], lo, hi, 0, padb);
    }
  }

  /** strconv.AppendUint(buf[:0], n, 16) on a slice with room for the digits: writes them in place. */
  method AppendUint(b: array<byte>, lo: nat, n: nat) returns (z: nat)
    requires lo + |Digits(n)| <= b.Length
    modifies b
    ensures z == |Digits(n)|
    ensures b[..] == old(b[..lo]) + Digits(n) + old(b[lo + z..])
  {
    var text := Digits(n);
    z := |text|;
    forall i | 0 <= i < z {
      b[lo + i] := text[i];
    }
  }

  /** Digits at the front of a window, shifted to its end, are the padded field. */
  lemma PaddedField(head: seq<byte>, n: nat, gap: seq<byte>, tail: seq<byte>, ndigits: nat)
    requires 0 < ndigits && n < Pow16(ndigits) && |Digits(n)| + |gap| == ndigits
    ensures var lo := |head|;
            Shifted(head + Digits(n) + (gap + tail), lo, lo + ndigits, |gap|, ZERO) == head + Fixed(n, ndigits) + tail
  {
    DigitsFit(n, ndigits);
    hide Fixed, Digits, Pow16;
    var s, lo, z := head + Digits(n) + (gap + tail), |head|, |Digits(n)|;
    assert s[..lo] == head;
    assert s[lo..lo + z] == Digits(n);
    assert s[lo + ndigits..] == tail;
  }

  /** Writes n as exactly ndigits digits at b[lo..] and touches no other byte of the buffer. */
  method CopyFixnum(b: array<byte>, lo: nat, ndigits: nat, n: nat)
    requires 0 < ndigits && n < Pow16(ndigits) && lo + ndigits <= b.Length
    modifies b
    ensures b[..] == old(b[..lo]) + Fixed(n, ndigits) + old(b[lo + ndigits..])
  {
    DigitsFit(n, ndigits);
    hide Fixed, Digits, Pow16, Shifted;
    ghost var was := b[..];
    var z := AppendUint(b, lo, n);
    ghost var gap, tail := was[lo + z..lo + ndigits], was[lo + ndigits..];
    WindowParts(was, lo, z, ndigits);
    assert b[..] == was[..lo] + Digits(n) + (gap + tail);
    PaddedField(was[..lo], n, gap, tail, ndigits);
    RShiftSlice(b, lo, lo + ndigits, ndigits - z, ZERO);
  }

  lemma WindowParts(s: seq<byte>, lo: nat, z: nat, n: nat)
    requires z <= n && lo + n <= |s|
    ensures s[lo + z..] == s[lo + z..lo + n] + s[lo + n..]
  {
  }
}
