/** The binary codec of the JavaScript peer (js/gotalk/protocol.js:28-192) against that of Go. */
module JsProtocol {
  import opened Bytes
  import opened Hex
  import opened Protocol
  import opened Octets
  import Utf8

  // ----- Fixed-width numbers ------------------------------------------------------------------

  /** Writes n.toString(16), padded with zeros on the left; writes outside a typed array are ignored. */
  method CopyBufFixnum(b: array<byte>, start: nat, n: nat, digits: nat)
    requires 0 < digits && n < Pow16(digits)
    modifies b
    ensures forall k :: 0 <= k < b.Length ==>
              b[k] == if start <= k < start + digits then Fixed(n, digits)[k - start] else old(b[k])
  {
    DigitsFit(n, digits);
    var s := Digits(n);
    var z := digits - |s|;
    var i := start;
    while z > 0
      invariant 0 <= z <= digits - |s| && i == start + (digits - |s|) - z
      invariant forall k :: 0 <= k < b.Length ==> b[k] == if start <= k < i then ZERO else old(b[k])
    {
      if i < b.Length {
        b[i] := ZERO;
      }
      i := i + 1;
      z := z - 1;
    }
    var y := 0;
    while y < |s|
      invariant 0 <= y <= |s| && i == start + (digits - |s|) + y
      invariant forall k :: 0 <= k < b.Length ==>
                  b[k] == if start <= k < i then Fixed(n, digits)[k - start] else old(b[k])
    {
      if i < b.Length {
        b[i] := s[y];
      }
      i := i + 1;
      y := y + 1;
    }
  }

  /** ECMAScript's ToInt32. */
  function ToInt32(x: int): (r: int)
    ensures -0x8000_0000 <= r < 0x8000_0000
    ensures 0 <= x < 0x8000_0000 ==> r == x
  {
    var m := x % TWO_32;
    if m >= 0x8000_0000 then m - TWO_32 else m
  }

  /** (val << 4) | (c & 0xF) on signed 32-bit numbers. */
  function PushDigit(val: int, c: int): int {
    ToInt32(val * 16 + c % 16)
  }

  // The same on the words that JavaScript's operators work on.

  function Nibble(w: bv32): nat {
    (w & 0xf) as bv4 as int
  }

  /** The number a word stands for, from its hexadecimal digits. */
  function Word(w: bv32): nat {
    Nibble(w) + 0x10 * Nibble(w >> 4) + 0x100 * Nibble(w >> 8) + 0x1000 * Nibble(w >> 12)
    + 0x1_0000 * Nibble(w >> 16) + 0x10_0000 * Nibble(w >> 20)
    + 0x100_0000 * Nibble(w >> 24) + 0x1000_0000 * Nibble(w >> 28)
  }

  function Signed(w: bv32): int {
    ToInt32(Word(w))
  }

  function PushWord(val: bv32, c: bv32): bv32 {
    (val << 4) | (c & 0xf)
  }

  lemma DigitsOfPush(val: bv32, c: bv32)
    ensures var p := PushWord(val, c);
            && p & 0xf == c & 0xf && (p >> 4) & 0xf == val & 0xf && (p >> 8) & 0xf == (val >> 4) & 0xf
            && (p >> 12) & 0xf == (val >> 8) & 0xf && (p >> 16) & 0xf == (val >> 12) & 0xf
            && (p >> 20) & 0xf == (val >> 16) & 0xf && (p >> 24) & 0xf == (val >> 20) & 0xf
            && (p >> 28) & 0xf == (val >> 24) & 0xf
  {
  }

  lemma WordOfPush(val: bv32, c: bv32)
    ensures Word(PushWord(val, c)) == 16 * Word(val) + Nibble(c) - TWO_32 * Nibble(val >> 28)
  {
    DigitsOfPush(val, c);
    hide PushWord;
  }

  lemma ToInt32Repeats(x: int, k: int)
    ensures ToInt32(x + TWO_32 * k) == ToInt32(x)
  {
    assert (x + TWO_32 * k) % TWO_32 == x % TWO_32;
  }

  lemma PushWraps(h: nat, d: nat)
    requires d < 16
    ensures PushDigit(ToInt32(h), d) == ToInt32(16 * h + d)
  {
    var k := h / TWO_32 + if h % TWO_32 >= 0x8000_0000 then 1 else 0;
    assert h == ToInt32(h) + TWO_32 * k;
    assert 16 * h + d == ToInt32(h) * 16 + d % 16 + TWO_32 * (16 * k);
    hide ToInt32;
    ToInt32Repeats(ToInt32(h) * 16 + d % 16, 16 * k);
  }

  lemma PushReduced(val: int, n: int)
    ensures PushDigit(val, n % 16) == PushDigit(val, n)
  {
    hide ToInt32;
    assert (n % 16) % 16 == n % 16;
  }

  /** The shift and the disjunction on words compute PushDigit on the signed numbers they stand for. */
  lemma PushDigitOnWords(val: bv32, c: bv32, n: int)
    requires Nibble(c) == n % 16
    ensures Signed(PushWord(val, c)) == PushDigit(Signed(val), n)
  {
    WordOfPush(val, c);
    hide Word, Nibble, PushWord, PushDigit, ToInt32;
    PushWraps(Word(val), Nibble(c));
    ToInt32Repeats(Word(PushWord(val, c)), Nibble(val >> 28));
    PushReduced(Signed(val), n);
  }

  /** One character of parseHexInt: its number, and whether the character is rejected. */
  function JsDigit(c: byte): (int, bool) {
    if c < 0x40 then (c - 0x30, c < 0x30)
    else if c < 0x47 then (c - 0x37, c < 0x41)
    else if c < 0x67 && 0x60 < c then (c - 0x57, false)
    else (c, true)
  }

  predicate JsAccepts(s: seq<byte>) {
    forall i :: 0 <= i < |s| ==> !JsDigit(s[i]).1
  }

  function JsValue(s: seq<byte>): int {
    if s == [] then 0 else PushDigit(JsValue(s[..|s| - 1]), JsDigit(s[|s| - 1]).0)
  }

  /** parseHexInt as a value; None is the exception it throws. */
  function JsParseInt(s: seq<byte>): Option<int> {
    if JsAccepts(s) then Some(JsValue(s)) else None
  }

  lemma JsOneMore(s: seq<byte>, i: nat)
    requires i < |s|
    ensures JsValue(s[..i + 1]) == PushDigit(JsValue(s[..i]), JsDigit(s[i]).0)
    ensures JsAccepts(s[..i + 1]) == (JsAccepts(s[..i]) && !JsDigit(s[i]).1)
  {
    hide PushDigit, JsDigit;
    assert s[..i + 1][..i] == s[..i];
    assert s[..i + 1] == s[..i] + [s[i]];
  }

  /** What the branches of the loop make of one character. */
  lemma DigitOnWords(o: octet)
    ensures var c, n := o as bv32, o as int;
            && (c < 0x30 <==> n < 0x30) && (c < 0x40 <==> n < 0x40) && (c < 0x41 <==> n < 0x41)
            && (c < 0x47 <==> n < 0x47) && (c < 0x67 <==> n < 0x67) && (0x60 < c <==> 0x60 < n)
    ensures Nibble(o as bv32) == o as int % 16
  {
  }

  lemma DecimalNibble(o: octet)
    ensures Nibble(o as bv32 - 0x30) == (o as int - 0x30) % 16
  {
  }

  lemma UpperNibble(o: octet)
    ensures Nibble(o as bv32 - 0x37) == (o as int - 0x37) % 16
  {
  }

  lemma LowerNibble(o: octet)
    ensures Nibble(o as bv32 - 0x57) == (o as int - 0x57) % 16
  {
  }

  method ParseHexInt(bytes: seq<octet>) returns (r: Option<int>)
    ensures r == JsParseInt(AsBytes(bytes))
  {
    hide Nibble, PushWord, PushDigit, Signed, JsValue, JsAccepts;
    var val: bv32, i, err := 0, 0, false;
    ghost var s := AsBytes(bytes);
    assert s[..0] == [];
    NoDigits();
    while i < |bytes|
      invariant 0 <= i <= |bytes|
      invariant Signed(val) == JsValue(s[..i]) && err == !JsAccepts(s[..i])
    {
      JsOneMore(s, i);
      DigitOnWords(bytes[i]);
      DecimalNibble(bytes[i]);
      UpperNibble(bytes[i]);
      LowerNibble(bytes[i]);
      var c := bytes[i] as bv32;
      if c < 0x40 {
        if c < 0x30 {
          err := true;
        }
        c := c - 0x30;
      } else if c < 0x47 {
        if c < 0x41 {
          err := true;
        }
        c := c - 0x37;
      } else if c < 0x67 && 0x60 < c {
        c := c - 0x57;
      } else {
        err := true;
      }
      PushDigitOnWords(val, c, JsDigit(s[i]).0);
      val := PushWord(val, c);
      i := i + 1;
    }
    assert s[..i] == s;
    r := if err then None else Some(Signed(val));
  }

  lemma NoDigits()
    ensures JsValue([]) == 0 && JsAccepts([]) && Signed(0) == 0
  {
    assert Word(0) == 0;
  }

  /** On hexadecimal digits parseHexInt computes the number modulo 2^32, as a signed word. */
  lemma {:induction false} JsReadsHex(s: seq<byte>)
    requires AllHex(s)
    ensures JsAccepts(s) && JsValue(s) == ToInt32(HexValue(s))
  {
    if s != [] {
      JsReadsHex(s[..|s| - 1]);
      PushWraps(HexValue(s[..|s| - 1]), DigitValue(s[|s| - 1]));
    }
  }

  /** Besides hexadecimal digits it accepts the six characters between '9' and '@', which Go rejects. */
  lemma JsAcceptsMore(s: seq<byte>)
    ensures JsAccepts(s) <==> forall i :: 0 <= i < |s| ==> IsHexDigit(s[i]) || 0x3a <= s[i] <= 0x3f
  {
    if JsAccepts(s) {
      forall i | 0 <= i < |s|
        ensures IsHexDigit(s[i]) || 0x3a <= s[i] <= 0x3f
      {
        assert !JsDigit(s[i]).1;
      }
    }
  }

  // ----- makeMsg ------------------------------------------------------------------------------

  function WaitField(h: Header): seq<byte>
    requires h.wait < TWO_32
  {
    Widths();
    if h.t == RETRY_RES then Fixed(h.wait, 8) else []
  }

  /** Everything makeMsg tries to write, for a name given as its UTF-8 bytes (none if empty). */
  function JsFields(h: Header): (s: seq<byte>)
    requires Encodable(h) && |h.name| < 0x1000
  {
    Widths();
    [h.t] + (if h.id == [] then [] else h.id[..4]) + NameField(h.name) + WaitField(h) + Fixed(h.size, 8)
  }

  /** What fits into the buffer it allocates, which has no room for the wait of an 'e'. */
  function JsEncode(h: Header): (s: seq<byte>)
    requires Encodable(h) && |h.name| < 0x1000
  {
    var s := JsFields(h);
    if h.t == RETRY_RES then s[..|s| - 8] else s
  }

  // What makeMsg makes of any arguments, a nonempty name being given as its bytes.

  function JsName(nameb: Option<seq<byte>>): seq<byte>
    requires nameb.Some? ==> |nameb.value| < 0x1000
  {
    Widths();
    if nameb.Some? then Fixed(|nameb.value|, 3) + nameb.value else []
  }

  /** The fields it writes: an id that has not four characters is left out. */
  function JsText(t: byte, id: seq<byte>, nameb: Option<seq<byte>>, wait: nat, size: nat): seq<byte>
    requires (nameb.Some? ==> |nameb.value| < 0x1000) && wait < TWO_32 && size < TWO_32
  {
    Widths();
    [t] + (if |id| == 4 then id else []) + JsName(nameb) + WaitField(Header(t, [], [], wait, 0)) + Fixed(size, 8)
  }

  /** The size of the buffer: room for four bytes of any id, and none for the wait of an 'e'. */
  function JsRoom(id: seq<byte>, nameb: Option<seq<byte>>): nat {
    (if id != [] then 13 else 9) + if nameb.Some? then 3 + |nameb.value| else 0
  }

  /** The text in a buffer of n bytes that starts out as zeros. */
  function InBuffer(text: seq<byte>, n: nat): seq<byte> {
    if |text| >= n then text[..n] else text + Repeat(0, n - |text|)
  }

  /** For an id of four bytes or none, and a name with at least one byte or none, this is JsEncode. */
  lemma MadeIsEncoded(h: Header)
    requires Encodable(h) && |h.id| <= 4 && |h.name| < 0x1000
    ensures var nameb := if h.name == [] then None else Some(h.name);
            InBuffer(JsText(h.t, h.id, nameb, h.wait, h.size), JsRoom(h.id, nameb)) == JsEncode(h)
  {
    FieldSizes(h);
    hide Fixed, Pow16;
    Widths();
    assert h.id != [] ==> h.id[..4] == h.id;
  }

  ghost predicate Holds(b: seq<byte>, text: seq<byte>) {
    forall k :: 0 <= k < |b| ==> b[k] == if k < |text| then text[k] else 0
  }

  method PutFixnum(b: array<byte>, z: nat, n: nat, digits: nat, ghost head: seq<byte>)
    requires 0 < digits && n < Pow16(digits) && |head| == z && Holds(b[..], head)
    modifies b
    ensures Holds(b[..], head + Fixed(n, digits))
  {
    CopyBufFixnum(b, z, n, digits);
  }

  /** b.set(text, z): a range error unless the text fits. */
  method Set(b: array<byte>, z: nat, text: seq<byte>, ghost head: seq<byte>)
    requires z + |text| <= b.Length && |head| == z && Holds(b[..], head)
    modifies b
    ensures Holds(b[..], head + text)
  {
    forall i | 0 <= i < |text| {
      b[z + i] := text[i];
    }
  }

  lemma HoldsInBuffer(b: seq<byte>, text: seq<byte>)
    requires Holds(b, text)
    ensures b == InBuffer(text, |b|)
  {
  }

  method PutName(b: array<byte>, z: nat, name: seq<byte>, ghost head: seq<byte>)
    requires |name| < 0x1000 && z + 3 + |name| <= b.Length && |head| == z && Holds(b[..], head)
    modifies b
    ensures Holds(b[..], head + JsName(Some(name)))
  {
    hide Fixed, Pow16, Holds;
    Widths();
    PutFixnum(b, z, |name|, 3, head);
    Set(b, z + 3, name, head + Fixed(|name|, 3));
    assert head + Fixed(|name|, 3) + name == head + JsName(Some(name));
  }

  /** Id and name, as far as there are any, behind the type. */
  method PutIdAndName(b: array<byte>, t: byte, id: seq<byte>, nameb: Option<seq<byte>>) returns (z: nat)
    requires (nameb.Some? ==> |nameb.value| < 0x1000) && b.Length >= JsRoom(id, nameb) && Holds(b[..], [t])
    modifies b
    ensures var head := [t] + (if |id| == 4 then id else []) + JsName(nameb); z == |head| && Holds(b[..], head)
  {
    hide Fixed, Pow16, Holds;
    Widths();
    z := 1;
    ghost var head := [t];
    if |id| == 4 {
      Set(b, z, id, head);
      z := z + 4;
    }
    assert [t] + [] == [t];
    head := [t] + if |id| == 4 then id else [];
    if nameb.Some? {
      PutName(b, z, nameb.value, head);
      z := z + 3 + |nameb.value|;
    }
    assert nameb.None? ==> head + JsName(nameb) == head;
  }

  method MakeMsg(t: byte, id: seq<byte>, nameb: Option<seq<byte>>, wait: nat, size: nat) returns (msg: seq<byte>)
    requires (nameb.Some? ==> |nameb.value| < 0x1000) && wait < TWO_32 && size < TWO_32
    ensures msg == InBuffer(JsText(t, id, nameb, wait, size), JsRoom(id, nameb))
  {
    hide Fixed, Pow16, JsName, InBuffer;
    Widths();
    var z := if id != [] then 13 else 9;
    if nameb.Some? {
      z := z + 3 + |nameb.value|;
    }
    var b := new byte[z](i => 0);
    b[0] := t;
    z := PutIdAndName(b, t, id, nameb);
    ghost var head := [t] + (if |id| == 4 then id else []) + JsName(nameb);
    if t == RETRY_RES {
      PutFixnum(b, z, wait, 8, head);
      z := z + 8;
      head := head + Fixed(wait, 8);
    }
    PutFixnum(b, z, size, 8, head);
    assert head + Fixed(size, 8) == JsText(t, id, nameb, wait, size);
    HoldsInBuffer(b[..], head + Fixed(size, 8));
    msg := b[..];
  }

  lemma FieldSizes(h: Header)
    requires |h.name| < 0x1000 && h.wait < TWO_32
    ensures |NameField(h.name)| == (if h.name == [] then 0 else 3 + |h.name|)
    ensures |WaitField(h)| == (if h.t == RETRY_RES then 8 else 0)
  {
  }

  /** Go and JavaScript put the same bytes on the wire for every message that is not an 'e'. */
  lemma SameBytes(h: Header)
    requires Encodable(h) && |h.name| < 0x1000 && h.t != RETRY_RES
    ensures JsEncode(h) == Encode(h)
  {
  }

  /** An 'e' made in JavaScript lacks its payload size: it differs from Go's, and Go reads it as cut off. */
  lemma RetryIsCut(h: Header, end: End)
    requires Encodable(h) && h.t == RETRY_RES && |h.id| == 4 && h.name == []
    ensures |JsEncode(h)| + 8 == |Encode(h)| && JsEncode(h) < Encode(h)
    ensures ReadHeader(JsEncode(h), end) == Err(Ended(end), 13)
  {
    Widths();
    var e, j := Encode(h), JsEncode(h);
    assert e == JsFields(h);
    assert j == e[..13];
    assert j[5..13] == Fixed(h.wait, 8);
    ParseFixed(h.wait, 8);
  }

  // ----- parseMsg -----------------------------------------------------------------------------

  /** What parseMsg returns; no name is the same as an empty one. */
  datatype JsMsg = JsMsg(t: byte, id: seq<byte>, name: seq<Utf8.unit>, wait: int, size: int)

  /** The string decoded from the bytes of a name. */
  function NameOf(bs: seq<byte>): seq<Utf8.unit> {
    Utf8.DecodeFrom(AsOctets(bs), 0)
  }

  lemma NoName()
    ensures NameOf([]) == []
  {
  }

  /** b.subarray(i, j): indices beyond the end are clamped. */
  function Subarray(b: seq<byte>, i: nat, j: nat): seq<byte>
    requires i <= j
  {
    if |b| <= i then [] else if |b| < j then b[i..] else b[i..j]
  }

  /** Three digits are too few for parseHexInt to return a negative number. */
  lemma {:induction false} ThreeDigitsArePositive(s: seq<byte>)
    requires |s| <= 3
    ensures 0 <= JsValue(s) < Pow16(|s|) <= 0x1000
  {
    Widths();
    if s != [] {
      ThreeDigitsArePositive(s[..|s| - 1]);
    }
  }

  function JsSize(b: seq<byte>, m: JsMsg, z: nat): Option<JsMsg> {
    match JsParseInt(Subarray(b, z, z + 8))
    case None => None
    case Some(size) => Some(m.(size := size))
  }

  /** parseMsg on the bytes of one WebSocket frame; None is an exception. */
  function JsParse(b: seq<byte>): Option<JsMsg>
    requires b != []
  {
    var t := b[0];
    var z := 1 + IdSize(t);
    var m := JsMsg(t, if HasId(t) then Subarray(b, 1, 5) else [], [], 0, 0);
    if t == HEARTBEAT then
      match JsParseInt(Subarray(b, 1, 5))
      case None => None
      case Some(load) => JsSize(b, m.(wait := load), 5)
    else if IsNamed(t) then
      match JsParseInt(Subarray(b, z, z + 3))
      case None => None
      case Some(namez) =>
        ThreeDigitsArePositive(Subarray(b, z, z + 3));
        JsSize(b, m.(name := NameOf(Subarray(b, z + 3, z + 3 + namez))), z + 3 + namez)
    else if t == RETRY_RES then
      match JsParseInt(Subarray(b, 5, 13))
      case None => None
      case Some(wait) => JsSize(b, m.(wait := wait), 13)
    else
      JsSize(b, m, z)
  }

  lemma JsField(f: seq<byte>, n: nat)
    requires IsHexField(f, n)
    ensures JsParseInt(f) == Some(ToInt32(n))
  {
    JsReadsHex(f);
  }

  lemma JsReadsNamed(b: seq<byte>, h: Header)
    requires Spells(b, h) && IsNamed(h.t)
    ensures JsParse(b) == Some(JsMsg(h.t, h.id, NameOf(h.name), h.wait, ToInt32(h.size)))
  {
    var n, z := HeaderSize(h), 1 + IdSize(h.t);
    JsField(b[n - 8..n], h.size);
    Widths();
    FieldInRange(b[z..z + 3]);
    JsField(b[z..z + 3], |h.name|);
    hide JsParseInt, NameOf, Pow16;
  }

  /** parseMsg on a header of the grammar returns its fields, with the two numbers as signed words. */
  lemma JsReadsSpelled(b: seq<byte>, h: Header)
    requires Spells(b, h)
    ensures JsParse(b) == Some(JsMsg(h.t, h.id, NameOf(h.name), ToInt32(h.wait), ToInt32(h.size)))
  {
    NoName();
    hide JsParseInt, NameOf;
    if IsNamed(h.t) {
      JsReadsNamed(b, h);
      return;
    }
    var n := HeaderSize(h);
    JsField(b[n - 8..n], h.size);
    if h.t == RETRY_RES {
      JsField(b[5..13], h.wait);
    } else if h.t == HEARTBEAT {
      JsField(b[1..5], h.wait);
    }
  }

  /**
   Whatever bytes Go's ReadMsg accepts as a header, JavaScript's parseMsg reads the same type, id
   and numbers from them, and the string that the name decodes to; the numbers are equal exactly
   when they are below 2^31.
   */
  lemma GoAndJsAgree(b: seq<byte>, end: End)
    requires b != [] && ReadHeader(b, end).Msg?
    ensures var h := ReadHeader(b, end).h;
            && JsParse(b) == Some(JsMsg(h.t, h.id, NameOf(h.name), ToInt32(h.wait), ToInt32(h.size)))
            && (JsParse(b) == Some(JsMsg(h.t, h.id, NameOf(h.name), h.wait, h.size))
                <==> h.wait < 0x8000_0000 && h.size < 0x8000_0000)
  {
    hide ReadHeader, JsParse;
    ReadIsSpelled(b, end);
    JsReadsSpelled(b, ReadHeader(b, end).h);
  }

  // ----- Names --------------------------------------------------------------------------------

  /** The name field JavaScript gives a string: the fallback encoder's bytes. */
  function NameBytes(name: seq<Utf8.unit>): seq<byte> {
    AsBytes(Utf8.EncodeAll(Utf8.UpToNul(name)))
  }

  /**
   Whoever made it, a header that Go accepts with the UTF-8 bytes of a string as its name is read by
   JavaScript with that string as its name.
   */
  lemma NamesAgree(b: seq<byte>, end: End, name: seq<Utf8.unit>)
    requires b != [] && ReadHeader(b, end).Msg?
    requires ReadHeader(b, end).h.name == AsBytes(Utf8.EncodeAll(name))
    ensures JsParse(b).Some? && JsParse(b).value.name == name
  {
    hide ReadHeader, JsParse, Utf8.EncodeAll;
    GoAndJsAgree(b, end);
    NameOfEncoded(name);
  }

  lemma NameOfEncoded(name: seq<Utf8.unit>)
    ensures NameOf(AsBytes(Utf8.EncodeAll(name))) == name
  {
    var os := Utf8.EncodeAll(name);
    OctetsReturn(os);
    assert os[0..] == os;
    Utf8.AllDecodes(os, 0, name);
  }

  /**
   The names from which decoding loses nothing, by their bytes: UTF-8 of characters with up to three
   bytes each. These are the names that are the encoding of some string.
   */
  lemma NamesDecodedFaithfully(bs: seq<byte>)
    ensures AsBytes(Utf8.EncodeAll(NameOf(bs))) == bs <==> Utf8.IsBmpUtf8(AsOctets(bs))
    ensures Utf8.IsBmpUtf8(AsOctets(bs)) <==> exists name :: bs == AsBytes(Utf8.EncodeAll(name))
  {
    var os := AsOctets(bs);
    Utf8.DecodedFaithfully(os);
    BytesReturn(bs);
    OctetsReturn(Utf8.EncodeAll(NameOf(bs)));
    hide Utf8.EncodeAll, Utf8.DecodeFrom, Utf8.IsBmpUtf8, AsBytes;
    if exists name :: bs == AsBytes(Utf8.EncodeAll(name)) {
      var name :| bs == AsBytes(Utf8.EncodeAll(name));
      NameOfEncoded(name);
    }
  }

  lemma FourBytesAreLost()
    ensures NameOf(AsBytes(Utf8.FOUR_OCTETS)) == [0xf600]
    ensures AsBytes(Utf8.EncodeAll([0xf600])) != AsBytes(Utf8.FOUR_OCTETS)
  {
    OctetsReturn(Utf8.FOUR_OCTETS);
    OctetsReturn(Utf8.EncodeAll([0xf600]));
    Utf8.FourOctetsAreLost();
    hide Utf8.EncodeAll, Utf8.DecodeFrom, AsBytes, AsOctets;
  }

  /** A name of one character with four bytes, which Go reads as it is: JavaScript reads another name. */
  lemma FourByteNameIsLost(id: seq<byte>, size: nat, end: End)
    requires |id| == 4 && size < TWO_32
    ensures var h := Header(SINGLE_REQ, id, AsBytes(Utf8.FOUR_OCTETS), 0, size);
            && WellFormed(h) && ReadHeader(Encode(h), end) == Msg(h, |Encode(h)|)
            && JsParse(Encode(h)).Some? && JsParse(Encode(h)).value.name == [0xf600]
            && AsBytes(Utf8.EncodeAll([0xf600])) != h.name
  {
    hide ReadHeader, JsParse, Encode, Utf8.EncodeAll, Utf8.DecodeFrom, AsBytes, AsOctets, NameOf;
    var h := Header(SINGLE_REQ, id, AsBytes(Utf8.FOUR_OCTETS), 0, size);
    assert |Utf8.FOUR_OCTETS| == 4;
    FourBytesAreLost();
    ReadsBack(h, [], end);
    assert Encode(h) + [] == Encode(h);
    GoAndJsAgree(Encode(h), end);
  }

  /**
   A request or notification made in JavaScript is read by Go with the name's UTF-8 bytes, and by
   JavaScript with the name itself, unless the name contains a NUL.
   */
  lemma NameSurvives(t: byte, id: seq<byte>, name: seq<Utf8.unit>, size: nat, end: End)
    requires IsNamed(t)
    requires WellFormed(Header(t, id, NameBytes(name), 0, size))
    ensures var h := Header(t, id, NameBytes(name), 0, size);
            && ReadHeader(JsEncode(h), end) == Msg(h, |JsEncode(h)|)
            && JsParse(JsEncode(h)).Some?
            && (JsParse(JsEncode(h)).value.name == name <==> 0 !in name)
  {
    hide ReadHeader, JsParse, Encode, JsEncode;
    var h := Header(t, id, NameBytes(name), 0, size);
    SameBytes(h);
    ReadsBack(h, [], end);
    assert Encode(h) + [] == Encode(h);
    GoAndJsAgree(Encode(h), end);
    OctetsReturn(Utf8.EncodeAll(Utf8.UpToNul(name)));
    Utf8.RoundTrip(name);
  }
}
