/** The bytes of a JavaScript buffer as eight-bit words, and as the numbers that Go's bytes are here. */
module Octets {
  import opened Bytes

  type octet = bv8

  lemma NextOctet(o: octet)
    requires o as int < 255
    ensures (o + 1) as int == o as int + 1
  {
  }

  lemma SameNumber(o: octet, p: octet)
    requires o as int == p as int
    ensures o == p
  {
  }

  /**
   The word whose value is b. Counting up keeps the proofs to one addition of words at a time; that a
   conversion from numbers to words and back changes nothing is far more expensive to prove.
   */
  function OctetOf(b: byte): (o: octet)
    ensures o as int == b
  {
    if b == 0 then 0
    else
      var o := OctetOf(b - 1);
      NextOctet(o);
      o + 1
  }

  /** The values of the bytes in a buffer. */
  function AsBytes(os: seq<octet>): (bs: seq<byte>)
    ensures |bs| == |os|
  {
    seq(|os|, i requires 0 <= i < |os| => os[i] as int)
  }

  function AsOctets(bs: seq<byte>): (os: seq<octet>)
    ensures |os| == |bs|
  {
    seq(|bs|, i requires 0 <= i < |bs| => OctetOf(bs[i]))
  }

  lemma BytesReturn(bs: seq<byte>)
    ensures AsBytes(AsOctets(bs)) == bs
  {
  }

  lemma OctetsReturn(os: seq<octet>)
    ensures AsOctets(AsBytes(os)) == os
  {
    forall i | 0 <= i < |os|
      ensures AsOctets(AsBytes(os))[i] == os[i]
    {
      SameNumber(OctetOf(os[i] as int), os[i]);
    }
  }
}
