/**
 Hexadecimal numbers: the text strconv.AppendUint and strconv.ParseUint write and read in
 base 16, and the fixed-width fields the wire format is made of.
 */
module Hex {
  import opened Bytes

  const ZERO: byte := 48

  function Pow16(k: nat): (p: nat)
    ensures p > 0
  {
    if k == 0 then 1 else 16 * Pow16(k - 1)
  }

  predicate IsHexDigit(c: byte) {
    48 <= c <= 57 || 65 <= c <= 70 || 97 <= c <= 102
  }

  function DigitValue(c: byte): (d: nat)
    requires IsHexDigit(c)
    ensures d < 16
  {
    if c <= 57 then c - 48 else if c <= 70 then c - 55 else c - 87
  }

  /** The lower-case digit of value d. */
  function DigitChar(d: nat): (c: byte)
    requires d < 16
    ensures IsHexDigit(c) && DigitValue(c) == d && !(65 <= c <= 70)
  {
    if d < 10 then 48 + d else 87 + d
  }

  predicate AllHex(s: seq<byte>) {
    forall i :: 0 <= i < |s| ==> IsHexDigit(s[i])
  }

  function HexValue(s: seq<byte>): nat
    requires AllHex(s)
  {
    if s == [] then 0 else 16 * HexValue(s[..|s| - 1]) + DigitValue(s[|s| - 1])
  }

  /** What strconv.AppendUint(_, n, 16) appends: no leading zeros. */
  function Digits(n: nat): (s: seq<byte>)
    ensures s != []
  {
    if n < 16 then [DigitChar(n)] else Digits(n / 16) + [DigitChar(n % 16)]
  }

  /** n as exactly k lower-case digits. */
  function Fixed(n: nat, k: nat): (s: seq<byte>)
    requires n < Pow16(k)
    ensures |s| == k && AllHex(s)
  {
    if k == 0 then [] else Fixed(n / 16, k - 1) + [DigitChar(n % 16)]
  }

  /** What strconv.ParseUint(string(s), 16, bits) returns for the value bound `limit` == 2^bits. */
  function ParseUint(s: seq<byte>, limit: nat): (r: Option<nat>)
    ensures r.Some? ==> AllHex(s) && r.value == HexValue(s) < limit
  {
    if s == [] || !AllHex(s) || HexValue(s) >= limit then None else Some(HexValue(s))
  }

  lemma {:induction false} FixedValue(n: nat, k: nat)
    requires n < Pow16(k)
    ensures HexValue(Fixed(n, k)) == n
  {
    if k > 0 {
      FixedValue(n / 16, k - 1);
      assert Fixed(n, k)[..k - 1] == Fixed(n / 16, k - 1);
    }
  }

  /** A field of k digits cannot exceed its range, so ParseUint's range error never occurs on one. */
  lemma {:induction false} FieldInRange(s: seq<byte>)
    requires AllHex(s)
    ensures HexValue(s) < Pow16(|s|)
  {
    if s != [] {
      FieldInRange(s[..|s| - 1]);
    }
  }

  lemma {:induction false} DigitsFit(n: nat, k: nat)
    requires n < Pow16(k) && k > 0
    ensures |Digits(n)| <= k
    ensures Fixed(n, k) == Repeat(ZERO, k - |Digits(n)|) + Digits(n)
  {
    if n < 16 {
      FixedZero(k - 1);
    } else {
      assert Pow16(1) == 16 * Pow16(0);
      DigitsFit(n / 16, k - 1);
    }
  }

  lemma {:induction false} FixedZero(k: nat)
    ensures 0 < Pow16(k) && Fixed(0, k) == Repeat(ZERO, k)
  {
    if k > 0 {
      FixedZero(k - 1);
    }
  }

  lemma Widths()
    ensures Pow16(2) == 0x100 && Pow16(3) == 0x1000 && Pow16(4) == 0x1_0000 && Pow16(8) == TWO_32
  {
    assert Pow16(0) == 1;
    assert Pow16(1) == 16;
    assert Pow16(2) == 256;
    assert Pow16(3) == 4096;
    assert Pow16(4) == 65536;
    assert Pow16(5) == 16 * Pow16(4);
    assert Pow16(6) == 16 * Pow16(5);
    assert Pow16(7) == 16 * Pow16(6);
    assert Pow16(8) == 16 * Pow16(7);
  }

  /** Reading a printed field gives the number back, through the parser's own checks. */
  lemma ParseFixed(n: nat, k: nat)
    requires n < Pow16(k) && k > 0
    ensures ParseUint(Fixed(n, k), Pow16(k)) == Some(n)
  {
    FixedValue(n, k);
  }
}
