/**
 The JavaScript fallback UTF-8 codec (js/gotalk/utf8.js:8-83) on its own machine words: a string
 is a sequence of 16-bit units, a buffer a sequence of octets, and every operator is the bit
 operator of the source on 32 bits.
 */
module Utf8 {
  import opened Octets

  type unit = bv16

  // ----- sizeOf -------------------------------------------------------------------------------

  function Width(c: unit): nat {
    if c >> 11 != 0 then 3 else if c >> 7 != 0 then 2 else 1
  }

  /** The units before the first NUL, where sizeOf stops as at the end of the string. */
  function UpToNul(s: seq<unit>): seq<unit> {
    if s == [] || s[0] == 0 then [] else [s[0]] + UpToNul(s[1..])
  }

  function TotalWidth(s: seq<unit>): nat {
    if s == [] then 0 else Width(s[0]) + TotalWidth(s[1..])
  }

  method SizeOf(s: seq<unit>) returns (z: nat)
    ensures z == TotalWidth(UpToNul(s))
  {
    z := 0;
    var i := 0;
    while i < |s| && s[i] != 0
      invariant 0 <= i <= |s|
      invariant z + TotalWidth(UpToNul(s[i..])) == TotalWidth(UpToNul(s))
    {
      assert s[i..][1..] == s[i + 1..];
      assert UpToNul(s[i..])[1..] == UpToNul(s[i + 1..]);
      z := z + Width(s[i]);
      i := i + 1;
    }
  }

  // ----- encode -------------------------------------------------------------------------------

  /** ToUint8: what a Uint8Array keeps of a number. */
  function Low8(v: bv32): octet {
    (v & 0xff) as bv8
  }

  function Lead1(u: unit): octet {
    Low8(u as bv32)
  }

  function Lead2(u: unit): octet {
    Low8((u as bv32 >> 6) | 0xc0)
  }

  function Lead3(u: unit): octet {
    Low8((u as bv32 >> 12) | 0xe0)
  }

  function Middle(u: unit): octet {
    Low8(((u as bv32 >> 6) & 0x3f) | 0x80)
  }

  function Last(u: unit): octet {
    Low8((u as bv32 & 0x3f) | 0x80)
  }

  function EncodeUnit(u: unit): (bs: seq<octet>)
    ensures |bs| == Width(u)
  {
    WidthByRange(u);
    if u < 0x80 then [Lead1(u)]
    else if u < 0x800 then [Lead2(u), Last(u)]
    else [Lead3(u), Middle(u), Last(u)]
  }

  lemma WidthByRange(u: unit)
    ensures Width(u) == if u < 0x80 then 1 else if u < 0x800 then 2 else 3
  {
  }

  function EncodeAll(s: seq<unit>): (bs: seq<octet>)
    ensures |bs| == TotalWidth(s)
  {
    if s == [] then [] else EncodeUnit(s[0]) + EncodeAll(s[1..])
  }

  /** b[j] = v on a typed array: a write outside the array is ignored. */
  method Put(b: array<octet>, j: nat, v: octet)
    modifies b
    ensures forall i :: 0 <= i < b.Length ==> b[i] == if i == j then v else old(b[i])
  {
    if j < b.Length {
      b[j] := v;
    }
  }

  /** Writes one unit's octets at j, as far as the array reaches. */
  method PutUnit(b: array<octet>, j: nat, u: unit) returns (j': nat)
    modifies b
    ensures j' == j + Width(u)
    ensures forall i :: 0 <= i < b.Length ==>
              b[i] == if j <= i < j' then EncodeUnit(u)[i - j] else old(b[i])
  {
    WidthByRange(u);
    hide Low8, Lead1, Lead2, Lead3, Middle, Last, Width;
    ghost var bs := EncodeUnit(u);
    j' := j;
    if u < 0x80 {
      Put(b, j', Lead1(u));
      j' := j' + 1;
    } else if u < 0x800 {
      Put(b, j', Lead2(u));
      j' := j' + 1;
      Put(b, j', Last(u));
      j' := j' + 1;
    } else {
      Put(b, j', Lead3(u));
      j' := j' + 1;
      Put(b, j', Middle(u));
      j' := j' + 1;
      Put(b, j', Last(u));
      j' := j' + 1;
    }
  }

  lemma {:induction false} EncodeSnoc(s: seq<unit>, u: unit)
    ensures EncodeAll(s + [u]) == EncodeAll(s) + EncodeUnit(u)
  {
    if s == [] {
      assert EncodeAll([u]) == EncodeUnit(u) + EncodeAll([]);
    } else {
      assert (s + [u])[1..] == s[1..] + [u];
      EncodeSnoc(s[1..], u);
    }
  }

  lemma {:induction false} EncodedBefore(s: seq<unit>)
    ensures EncodeAll(UpToNul(s)) <= EncodeAll(s)
  {
    if s != [] && s[0] != 0 {
      EncodedBefore(s[1..]);
      assert UpToNul(s)[1..] == UpToNul(s[1..]);
    }
  }

  lemma NoUnits()
    ensures TotalWidth([]) == 0
  {
  }

  /** The array has sizeOf(s) octets, all of them written: those of the units before the first NUL. */
  method Encode(s: seq<unit>) returns (r: seq<octet>)
    ensures r == EncodeAll(UpToNul(s))
  {
    hide Width, EncodeUnit, EncodeAll, TotalWidth;
    var z := SizeOf(s);
    NoUnits();
    var b := new octet[z](i => 0);
    var i, j := 0, 0;
    while i != |s|
      invariant 0 <= i <= |s| && j == TotalWidth(s[..i])
      invariant forall k :: 0 <= k < j && k < z ==> b[k] == EncodeAll(s[..i])[k]
      decreases |s| - i
    {
      EncodeSnoc(s[..i], s[i]);
      assert s[..i + 1] == s[..i] + [s[i]];
      j := PutUnit(b, j, s[i]);
      i := i + 1;
    }
    assert s[..i] == s;
    EncodedBefore(s);
    r := b[..];
  }

  // ----- decode -------------------------------------------------------------------------------

  /** b[i] as a number; undefined counts as 0 in the bit operations behind the first byte. */
  function At(b: seq<octet>, i: nat): bv32 {
    if i < |b| then b[i] as bv32 else 0
  }

  function LeadSize(lead: bv32): nat {
    if lead < 0x80 then 1
    else if lead >> 5 == 0x6 then 2
    else if lead >> 4 == 0xe then 3
    else if lead >> 3 == 0x1e then 4
    else 1
  }

  function Code2(a: bv32, b: bv32): bv32 {
    ((a << 6) & 0x7ff) + (b & 0x3f)
  }

  function Code3(a: bv32, b: bv32, c: bv32): bv32 {
    ((a << 12) & 0xffff) + ((b << 6) & 0xfff) + (c & 0x3f)
  }

  function Code4(a: bv32, b: bv32, c: bv32, d: bv32): bv32 {
    ((a << 18) & 0x1fffff) + ((b << 12) & 0x3ffff) + ((c << 6) & 0xfff) + (d & 0x3f)
  }

  /** The number the loop computes from the octets at i, before String.fromCharCode. */
  function CodeAt(b: seq<octet>, i: nat): bv32 {
    var c := At(b, i);
    match LeadSize(c)
    case 2 => Code2(c, At(b, i + 1))
    case 3 => Code3(c, At(b, i + 1), At(b, i + 2))
    case 4 => Code4(c, At(b, i + 1), At(b, i + 2), At(b, i + 3))
    case _ => c
  }

  /** String.fromCharCode keeps 16 bits. */
  function Low16(c: bv32): unit {
    (c & 0xffff) as bv16
  }

  function DecodeFrom(b: seq<octet>, i: nat): seq<unit>
    decreases |b| - i
  {
    if i >= |b| then [] else [Low16(CodeAt(b, i))] + DecodeFrom(b, i + LeadSize(At(b, i)))
  }

  /** The body of decode's loop: one character's octets. */
  method DecodeOne(b: seq<octet>, at: nat) returns (c: bv32, i: nat)
    requires at < |b|
    ensures c == CodeAt(b, at) && i == at + LeadSize(At(b, at))
  {
    c := b[at] as bv32;
    i := at + 1;
    var lead := c & 0xff;
    LowByte(b[at]);
    if lead < 0x80 {
    } else if lead >> 5 == 0x6 {
      c := ((c << 6) & 0x7ff) + (At(b, i) & 0x3f);
      i := i + 1;
    } else if lead >> 4 == 0xe {
      c := ((c << 12) & 0xffff) + ((At(b, i) << 6) & 0xfff);
      i := i + 1;
      c := c + (At(b, i) & 0x3f);
      i := i + 1;
    } else if lead >> 3 == 0x1e {
      c := ((c << 18) & 0x1fffff) + ((At(b, i) << 12) & 0x3ffff);
      i := i + 1;
      c := c + ((At(b, i) << 6) & 0xfff);
      i := i + 1;
      c := c + (At(b, i) & 0x3f);
      i := i + 1;
    }
  }

  method Decode(b: seq<octet>) returns (s: seq<unit>)
    ensures s == DecodeFrom(b, 0)
  {
    hide CodeAt, At, LeadSize, Low16;
    s := [];
    var i := 0;
    while i < |b|
      invariant s + DecodeFrom(b, i) == DecodeFrom(b, 0)
      decreases |b| - i
    {
      ghost var at, before := i, s;
      var c;
      c, i := DecodeOne(b, i);
      s := s + [Low16(c)];
      assert DecodeFrom(b, at) == [Low16(c)] + DecodeFrom(b, i);
      assert before + ([Low16(c)] + DecodeFrom(b, i)) == s + DecodeFrom(b, i);
    }
  }

  lemma LowByte(o: octet)
    ensures (o as bv32) & 0xff == o as bv32
  {
  }

  // ----- Round trip ---------------------------------------------------------------------------

  lemma OneOctet(u: unit)
    requires u < 0x80
    ensures var a := Lead1(u) as bv32; LeadSize(a) == 1 && Low16(a) == u
  {
  }

  lemma TwoOctets(u: unit)
    requires 0x80 <= u < 0x800
    ensures var a, b := Lead2(u) as bv32, Last(u) as bv32; LeadSize(a) == 2 && Low16(Code2(a, b)) == u
  {
  }

  lemma ThreeOctets(u: unit)
    requires 0x800 <= u
    ensures var a, b, c := Lead3(u) as bv32, Middle(u) as bv32, Last(u) as bv32;
            LeadSize(a) == 3 && Low16(Code3(a, b, c)) == u
  {
  }

  lemma CodeBySize(b: seq<octet>, i: nat)
    ensures LeadSize(At(b, i)) == 1 ==> CodeAt(b, i) == At(b, i)
    ensures LeadSize(At(b, i)) == 2 ==> CodeAt(b, i) == Code2(At(b, i), At(b, i + 1))
    ensures LeadSize(At(b, i)) == 3 ==> CodeAt(b, i) == Code3(At(b, i), At(b, i + 1), At(b, i + 2))
  {
  }

  lemma AtIndex(b: seq<octet>, i: nat)
    requires i < |b|
    ensures At(b, i) == b[i] as bv32
  {
  }

  lemma OneDecodes(b: seq<octet>, i: nat, x: octet)
    requires i < |b| && b[i] == x && LeadSize(x as bv32) == 1
    ensures LeadSize(At(b, i)) == 1 && CodeAt(b, i) == x as bv32
  {
    hide At, CodeAt, LeadSize;
    AtIndex(b, i);
    CodeBySize(b, i);
  }

  lemma TwoDecode(b: seq<octet>, i: nat, x: octet, y: octet)
    requires i + 1 < |b| && b[i] == x && b[i + 1] == y && LeadSize(x as bv32) == 2
    ensures LeadSize(At(b, i)) == 2 && CodeAt(b, i) == Code2(x as bv32, y as bv32)
  {
    hide At, CodeAt, LeadSize, Code2;
    AtIndex(b, i);
    AtIndex(b, i + 1);
    CodeBySize(b, i);
  }

  lemma ThreeDecode(b: seq<octet>, i: nat, x: octet, y: octet, z: octet)
    requires i + 2 < |b| && b[i] == x && b[i + 1] == y && b[i + 2] == z && LeadSize(x as bv32) == 3
    ensures LeadSize(At(b, i)) == 3 && CodeAt(b, i) == Code3(x as bv32, y as bv32, z as bv32)
  {
    hide At, CodeAt, LeadSize, Code3;
    AtIndex(b, i);
    AtIndex(b, i + 1);
    AtIndex(b, i + 2);
    CodeBySize(b, i);
  }

  lemma SliceAt(b: seq<octet>, i: nat, bs: seq<octet>, k: nat)
    requires i + |bs| <= |b| && b[i..i + |bs|] == bs && k < |bs|
    ensures b[i + k] == bs[k]
  {
  }

  /** One unit's octets decode to the unit, whatever surrounds them. */
  lemma UnitDecodes(b: seq<octet>, i: nat, u: unit)
    requires i + Width(u) <= |b| && b[i..i + Width(u)] == EncodeUnit(u)
    ensures LeadSize(At(b, i)) == Width(u) && Low16(CodeAt(b, i)) == u
  {
    WidthByRange(u);
    hide Width, Low8, Low16, Lead1, Lead2, Lead3, Middle, Last, Code2, Code3, CodeAt, At, LeadSize;
    var bs := EncodeUnit(u);
    SliceAt(b, i, bs, 0);
    if u < 0x80 {
      OneOctet(u);
      OneDecodes(b, i, Lead1(u));
    } else if u < 0x800 {
      SliceAt(b, i, bs, 1);
      TwoOctets(u);
      TwoDecode(b, i, Lead2(u), Last(u));
    } else {
      SliceAt(b, i, bs, 1);
      SliceAt(b, i, bs, 2);
      ThreeOctets(u);
      ThreeDecode(b, i, Lead3(u), Middle(u), Last(u));
    }
  }

  lemma {:induction false} AllDecodes(b: seq<octet>, i: nat, s: seq<unit>)
    requires i <= |b| && b[i..] == EncodeAll(s)
    ensures DecodeFrom(b, i) == s
    decreases |s|
  {
    if s != [] {
      var w := Width(s[0]);
      assert b[i..i + w] == b[i..][..w] == EncodeUnit(s[0]);
      UnitDecodes(b, i, s[0]);
      assert b[i + w..] == b[i..][w..] == EncodeAll(s[1..]);
      AllDecodes(b, i + w, s[1..]);
    }
  }

  lemma {:induction false} UpToNulIsAll(s: seq<unit>)
    ensures UpToNul(s) == s <==> 0 !in s
  {
    if s != [] && s[0] != 0 {
      UpToNulIsAll(s[1..]);
      assert s == [s[0]] + s[1..];
    }
  }

  /**
   decode undoes encode for exactly the strings without a NUL, surrogates included; otherwise it
   returns what precedes the first NUL.
   */
  lemma RoundTrip(s: seq<unit>)
    ensures DecodeFrom(EncodeAll(UpToNul(s)), 0) == UpToNul(s)
    ensures DecodeFrom(EncodeAll(UpToNul(s)), 0) == s <==> 0 !in s
  {
    var b := EncodeAll(UpToNul(s));
    assert b[0..] == b;
    AllDecodes(b, 0, UpToNul(s));
    UpToNulIsAll(s);
  }

  // ----- RFC 3629 -----------------------------------------------------------------------------

  /** The table in section 3 of RFC 3629: marker bits, then the bits of the number, in the shortest form for it. */
  predicate IsUtf8Of(bs: seq<octet>, u: unit) {
    || (|bs| == 1 && Is1(bs[0], u))
    || (|bs| == 2 && Is2(bs[0], bs[1], u))
    || (|bs| == 3 && Is3(bs[0], bs[1], bs[2], u))
  }

  predicate Is1(x: octet, u: unit) {
    x & 0x80 == 0 && x as bv16 == u
  }

  predicate Is2(x: octet, y: octet, u: unit) {
    && x & 0xe0 == 0xc0 && y & 0xc0 == 0x80 && u >= 0x80
    && ((x & 0x1f) as bv16 << 6) | (y & 0x3f) as bv16 == u
  }

  predicate Is3(x: octet, y: octet, z: octet, u: unit) {
    && x & 0xf0 == 0xe0 && y & 0xc0 == 0x80 && z & 0xc0 == 0x80 && u >= 0x800
    && ((x & 0x0f) as bv16 << 12) | ((y & 0x3f) as bv16 << 6) | (z & 0x3f) as bv16 == u
  }

  lemma Rfc1(x: octet, u: unit)
    ensures Is1(x, u) <==> u < 0x80 && x == Lead1(u)
  {
  }

  lemma Rfc2(x: octet, y: octet, u: unit)
    ensures Is2(x, y, u) <==> 0x80 <= u < 0x800 && x == Lead2(u) && y == Last(u)
  {
  }

  lemma Rfc3IsUnit(x: octet, y: octet, z: octet, u: unit)
    requires Is3(x, y, z, u)
    ensures 0x800 <= u && x == Lead3(u) && y == Middle(u) && z == Last(u)
  {
  }

  lemma UnitIsRfc3(u: unit)
    requires 0x800 <= u
    ensures Is3(Lead3(u), Middle(u), Last(u), u)
  {
  }

  /** Every unit is encoded as the RFC prescribes for its number, and the RFC leaves no choice. */
  lemma EncodesAsInRfc(u: unit, bs: seq<octet>)
    ensures IsUtf8Of(bs, u) <==> bs == EncodeUnit(u)
  {
    hide Is1, Is2, Is3, Low8, Lead1, Lead2, Lead3, Middle, Last, Width;
    if |bs| == 1 {
      Rfc1(bs[0], u);
    } else if |bs| == 2 {
      Rfc2(bs[0], bs[1], u);
    } else if |bs| == 3 {
      if Is3(bs[0], bs[1], bs[2], u) {
        Rfc3IsUnit(bs[0], bs[1], bs[2], u);
      } else if 0x800 <= u {
        UnitIsRfc3(u);
      }
    }
  }

  // ----- Which octets are an encoding ---------------------------------------------------------

  predicate IsContinuation(x: octet) {
    x & 0xc0 == 0x80
  }

  /** The number of octets of the character that os begins with, if that has up to three in their shortest form. */
  function CharSize(os: seq<octet>): (n: nat)
    ensures n <= |os| && n <= 3
  {
    if |os| >= 1 && os[0] < 0x80 then 1
    else if |os| >= 2 && 0xc2 <= os[0] < 0xe0 && IsContinuation(os[1]) then 2
    else if |os| >= 3 && 0xe0 <= os[0] < 0xf0 && IsContinuation(os[1]) && IsContinuation(os[2])
            && (os[0] == 0xe0 ==> os[1] >= 0xa0) then 3
    else 0
  }

  /** UTF-8 of characters with up to three octets each, those of surrogates among them. */
  predicate IsBmpUtf8(os: seq<octet>) {
    os == [] || (CharSize(os) > 0 && IsBmpUtf8(os[CharSize(os)..]))
  }

  lemma ShortestForms(x: octet, y: octet, z: octet)
    ensures x < 0x80 ==> Is1(x, x as bv16)
    ensures 0xc2 <= x < 0xe0 && IsContinuation(y) ==> Is2(x, y, ((x & 0x1f) as bv16 << 6) | (y & 0x3f) as bv16)
    ensures 0xe0 <= x < 0xf0 && IsContinuation(y) && IsContinuation(z) && (x == 0xe0 ==> y >= 0xa0) ==>
              Is3(x, y, z, ((x & 0x0f) as bv16 << 12) | ((y & 0x3f) as bv16 << 6) | (z & 0x3f) as bv16)
  {
  }

  lemma FormsAreShortest(x: octet, y: octet, z: octet, u: unit)
    ensures Is1(x, u) ==> x < 0x80
    ensures Is2(x, y, u) ==> 0xc2 <= x < 0xe0 && IsContinuation(y)
    ensures Is3(x, y, z, u) ==>
              0xe0 <= x < 0xf0 && IsContinuation(y) && IsContinuation(z) && (x == 0xe0 ==> y >= 0xa0)
  {
  }

  /** The first character is the encoding of some unit. */
  lemma CharIsUnit(os: seq<octet>) returns (u: unit)
    requires CharSize(os) > 0
    ensures os[..CharSize(os)] == EncodeUnit(u)
  {
    var n := CharSize(os);
    var x, y, z := os[0], if n > 1 then os[1] else 0, if n > 2 then os[2] else 0;
    ShortestForms(x, y, z);
    u := if n == 1 then x as bv16
         else if n == 2 then ((x & 0x1f) as bv16 << 6) | (y & 0x3f) as bv16
         else ((x & 0x0f) as bv16 << 12) | ((y & 0x3f) as bv16 << 6) | (z & 0x3f) as bv16;
    hide Is1, Is2, Is3, IsContinuation, EncodeUnit;
    assert IsUtf8Of(os[..n], u);
    EncodesAsInRfc(u, os[..n]);
  }

  lemma UnitIsChar(u: unit, rest: seq<octet>)
    ensures CharSize(EncodeUnit(u) + rest) == |EncodeUnit(u)|
  {
    var bs := EncodeUnit(u);
    EncodesAsInRfc(u, bs);
    FormsAreShortest(bs[0], if |bs| > 1 then bs[1] else 0, if |bs| > 2 then bs[2] else 0, u);
    hide Is1, Is2, Is3, EncodeUnit, Width;
  }

  lemma {:induction false} EncodedIsBmpUtf8(s: seq<unit>)
    ensures IsBmpUtf8(EncodeAll(s))
  {
    if s != [] {
      hide EncodeUnit, CharSize;
      var bs, rest := EncodeUnit(s[0]), EncodeAll(s[1..]);
      UnitIsChar(s[0], rest);
      EncodedIsBmpUtf8(s[1..]);
      UnitTakesOctets(s[0]);
      assert (bs + rest)[|bs|..] == rest;
    }
  }

  lemma UnitTakesOctets(u: unit)
    ensures |EncodeUnit(u)| > 0
  {
  }

  lemma {:induction false} BmpUtf8IsEncoded(os: seq<octet>) returns (s: seq<unit>)
    requires IsBmpUtf8(os)
    ensures os == EncodeAll(s)
  {
    if os == [] {
      s := [];
    } else {
      var n := CharSize(os);
      var u := CharIsUnit(os);
      var t := BmpUtf8IsEncoded(os[n..]);
      hide EncodeUnit, CharSize;
      s := [u] + t;
      assert os == os[..n] + os[n..];
    }
  }

  /**
   Encoding what was decoded returns the octets exactly if they are UTF-8 of characters with up to
   three octets each.
   */
  lemma DecodedFaithfully(os: seq<octet>)
    ensures EncodeAll(DecodeFrom(os, 0)) == os <==> IsBmpUtf8(os)
  {
    hide DecodeFrom, IsBmpUtf8, EncodeAll;
    if IsBmpUtf8(os) {
      var s := BmpUtf8IsEncoded(os);
      assert os[0..] == os;
      AllDecodes(os, 0, s);
    }
    EncodedIsBmpUtf8(DecodeFrom(os, 0));
  }

  /** U+1F600 in UTF-8: the decoder makes one wrong unit of its four octets. */
  const FOUR_OCTETS: seq<octet> := [0xf0, 0x9f, 0x98, 0x80]

  lemma FourOctetsAreLost()
    ensures DecodeFrom(FOUR_OCTETS, 0) == [0xf600] && EncodeAll(DecodeFrom(FOUR_OCTETS, 0)) != FOUR_OCTETS
  {
    var os := FOUR_OCTETS;
    assert At(os, 0) == 0xf0 && At(os, 1) == 0x9f && At(os, 2) == 0x98 && At(os, 3) == 0x80;
    assert LeadSize(At(os, 0)) == 4 && DecodeFrom(os, 4) == [];
    DecodedFaithfully(os);
    assert CharSize(os) == 0;
  }
}
