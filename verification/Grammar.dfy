/**
 The grammar of messages as the documentation gives it (README.md:284-316), letter by letter and
 field by field, and that the headers of `Protocol` are those it produces.
 */
module Grammar {
  import opened Bytes
  import opened Hex
  import opened Protocol

  /** requestID, text3, wait (hexUInt8), load (hexUInt4), and the last hexUInt8: payloadSize, time or code. */
  datatype Field = Id | Text | Wait | Load | Last

  const LETTERS := "rspRSEenhf"

  /** What follows the letter. */
  function Production(letter: char): seq<Field> {
    match letter
    case 'r' => [Id, Text, Last]
    case 's' => [Id, Text, Last]
    case 'p' => [Id, Last]
    case 'R' => [Id, Last]
    case 'S' => [Id, Last]
    case 'E' => [Id, Last]
    case 'e' => [Id, Wait, Last]
    case 'n' => [Text, Last]
    case 'h' => [Load, Last]
    case 'f' => [Last]
    case _ => []
  }

  function Width(f: Field, h: Header): nat {
    match f
    case Id => 4
    case Text => 3 + |h.name|
    case Wait => 8
    case Load => 4
    case Last => 8
  }

  /** The bytes of one field say what the header has for it. */
  predicate IsField(c: seq<byte>, f: Field, h: Header)
    requires |c| == Width(f, h)
  {
    match f
    case Id => c == h.id
    case Text => IsHexField(c[..3], |h.name|) && c[3..] == h.name
    case Wait => IsHexField(c, h.wait)
    case Load => IsHexField(c, h.wait)
    case Last => IsHexField(c, h.size)
  }

  /** From `at` on the bytes are the fields from the i-th on. */
  predicate Fields(c: seq<byte>, at: nat, fs: seq<Field>, i: nat, h: Header)
    decreases |fs| - i
  {
    i < |fs| ==>
      var next := at + Width(fs[i], h);
      next <= |c| && IsField(c[at..next], fs[i], h) && Fields(c, next, fs, i + 1, h)
  }

  /** c begins with the header h, which has nothing but what its production mentions. */
  predicate Produced(c: seq<byte>, h: Header) {
    && |c| >= 1 && c[0] == h.t && h.t as char in LETTERS
    && var fs := Production(h.t as char);
       && Fields(c, 1, fs, 0, h)
       && (Id !in fs ==> h.id == []) && (Text !in fs ==> h.name == [])
       && (Wait !in fs && Load !in fs ==> h.wait == 0)
  }

  lemma TwoFields(c: seq<byte>, at: nat, fs: seq<Field>, h: Header)
    requires |fs| == 2
    ensures Fields(c, at, fs, 0, h) <==>
              var a := at + Width(fs[0], h); var b := a + Width(fs[1], h);
              b <= |c| && IsField(c[at..a], fs[0], h) && IsField(c[a..b], fs[1], h)
  {
    hide IsField;
    var a := at + Width(fs[0], h);
    assert Fields(c, a + Width(fs[1], h), fs, 2, h);
    assert Fields(c, a, fs, 1, h) <==>
           a + Width(fs[1], h) <= |c| && IsField(c[a..a + Width(fs[1], h)], fs[1], h);
  }

  lemma ThreeFields(c: seq<byte>, at: nat, fs: seq<Field>, h: Header)
    requires |fs| == 3
    ensures Fields(c, at, fs, 0, h) <==>
              var a := at + Width(fs[0], h); var b := a + Width(fs[1], h); var d := b + Width(fs[2], h);
              && d <= |c| && IsField(c[at..a], fs[0], h) && IsField(c[a..b], fs[1], h)
              && IsField(c[b..d], fs[2], h)
  {
    hide IsField;
    var a := at + Width(fs[0], h);
    var b := a + Width(fs[1], h);
    var d := b + Width(fs[2], h);
    assert Fields(c, d, fs, 3, h);
    assert Fields(c, b, fs, 2, h) <==> d <= |c| && IsField(c[b..d], fs[2], h);
    assert Fields(c, a, fs, 1, h) <==> d <= |c| && IsField(c[a..b], fs[1], h) && IsField(c[b..d], fs[2], h);
  }

  lemma TextSlices(c: seq<byte>, at: nat, n: nat)
    requires at + 3 + n <= |c|
    ensures c[at..at + 3 + n][..3] == c[at..at + 3] && c[at..at + 3 + n][3..] == c[at + 3..at + 3 + n]
  {
  }

  lemma LongHeaders(c: seq<byte>, h: Header)
    requires h.t as char in "rse"
    ensures Spells(c, h) <==> Produced(c, h)
  {
    hide IsHexField;
    ThreeFields(c, 1, Production(h.t as char), h);
    if h.t as char in "rs" && 8 + |h.name| <= |c| {
      TextSlices(c, 5, |h.name|);
    }
    hide Fields;
  }

  lemma ShortHeaders(c: seq<byte>, h: Header)
    requires h.t as char in "pRSEnhf"
    ensures Spells(c, h) <==> Produced(c, h)
  {
    hide IsHexField;
    var fs := Production(h.t as char);
    if |fs| == 2 {
      TwoFields(c, 1, fs, h);
    } else {
      assert Fields(c, 9, fs, 1, h);
    }
    if h.t as char == 'n' && 4 + |h.name| <= |c| {
      TextSlices(c, 1, |h.name|);
    }
    hide Fields;
  }

  /** The headers that MakeMsg writes and ReadMsg reads are those of the grammar. */
  lemma SpelledAsInGrammar(c: seq<byte>, h: Header)
    requires h.t as char in LETTERS
    ensures Spells(c, h) <==> Produced(c, h)
  {
    hide Spells, Produced;
    if h.t as char in "rse" {
      LongHeaders(c, h);
    } else {
      ShortHeaders(c, h);
    }
  }
}
