/** Base64 with the standard alphabet and '=' padding, per section 4 of RFC 4648
    (what java.util.Base64.getEncoder() produces), with a decoder that inverts it. */
module Base64 {
  import opened Wrappers
  import opened Bytes

  type sextet = x: int | 0 <= x < 64

  /** The character for a 6-bit value, from Table 1 of RFC 4648. */
  function Symbol(v: sextet): (c: char)
    ensures c != '='
  {
    if v < 26 then ('A' as int + v) as char
    else if v < 52 then ('a' as int + (v - 26)) as char
    else if v < 62 then ('0' as int + (v - 52)) as char
    else if v == 62 then '+'
    else '/'
  }

  /** The 6-bit value of an alphabet character; None for any other character. */
  function Value(c: char): Option<sextet>
  {
    if 'A' <= c <= 'Z' then Some(c as int - 'A' as int)
    else if 'a' <= c <= 'z' then Some(c as int - 'a' as int + 26)
    else if '0' <= c <= '9' then Some(c as int - '0' as int + 52)
    else if c == '+' then Some(62)
    else if c == '/' then Some(63)
    else None
  }

  lemma ValueOfSymbol(v: sextet)
    ensures Value(Symbol(v)) == Some(v)
  {
  }

  /** The four 6-bit groups of three bytes, most significant bits first. */
  function Sextets(b0: byte, b1: byte, b2: byte): seq<sextet>
  {
    [ b0 as int / 4,
      (b0 as int % 4) * 16 + b1 as int / 16,
      (b1 as int % 16) * 4 + b2 as int / 64,
      b2 as int % 64 ]
  }

  /** The three bytes carried by four 6-bit groups. */
  function Octets(v0: sextet, v1: sextet, v2: sextet, v3: sextet): seq<byte>
  {
    [ (v0 * 4 + v1 / 16) as byte,
      ((v1 % 16) * 16 + v2 / 4) as byte,
      ((v2 % 4) * 64 + v3) as byte ]
  }

  /** Three bytes as four characters. */
  function Quantum(b0: byte, b1: byte, b2: byte): (r: string)
    ensures |r| == 4
  {
    var v := Sextets(b0, b1, b2);
    [Symbol(v[0]), Symbol(v[1]), Symbol(v[2]), Symbol(v[3])]
  }

  /** The encoding: whole groups of three bytes, then a final group of one or two bytes
      padded with zero bits and completed with "==" or "=". */
  function Encode(bs: seq<byte>): (r: string)
    ensures forall i :: 0 <= i < |r| && r[i] == '=' ==> i >= |r| - 2
    ensures |bs| % 3 == 1 ==> |r| >= 4 && Value(r[|r| - 3]).Some? && Value(r[|r| - 3]).value % 16 == 0
    ensures |bs| % 3 == 2 ==> |r| >= 4 && Value(r[|r| - 2]).Some? && Value(r[|r| - 2]).value % 4 == 0
    decreases |bs|
  {
    if |bs| == 0 then ""
    else if |bs| == 1 then
      ValueOfSymbol(Sextets(bs[0], 0, 0)[1]);
      Quantum(bs[0], 0, 0)[..2] + "=="
    else if |bs| == 2 then
      ValueOfSymbol(Sextets(bs[0], bs[1], 0)[2]);
      Quantum(bs[0], bs[1], 0)[..3] + "="
    else
      assert |bs[3..]| % 3 == |bs| % 3;
      Quantum(bs[0], bs[1], bs[2]) + Encode(bs[3..])
  }

  /** The bytes of one block of four characters of which the last `pad` (0, 1 or 2) are '=':
      3 - pad bytes, or None when a character that carries data is not in the alphabet. */
  function DecodeBlock(s: string, pad: nat): Option<seq<byte>>
    requires |s| == 4 && pad <= 2
  {
    var v0, v1 := Value(s[0]), Value(s[1]);
    var v2 := if pad == 2 then Some(0) else Value(s[2]);
    var v3 := if pad >= 1 then Some(0) else Value(s[3]);
    if v0.None? || v1.None? || v2.None? || v3.None? then None
    else Some(Octets(v0.value, v1.value, v2.value, v3.value)[..3 - pad])
  }

  /** Decodes a padded Base64 text, inverting Encode (DecodeEncode); only the last block may
      carry padding. It is no validating decoder: it ignores the pad bits of the last block,
      so "QR==" decodes like "QQ==". */
  function Decode(s: string): Option<seq<byte>>
    decreases |s|
  {
    if |s| == 0 then Some([])
    else if |s| < 4 then None
    else if |s| == 4 && s[2] == '=' && s[3] == '=' then DecodeBlock(s, 2)
    else if |s| == 4 && s[3] == '=' then DecodeBlock(s, 1)
    else match (DecodeBlock(s[..4], 0), Decode(s[4..]))
      case (Some(head), Some(rest)) => Some(head + rest)
      case _ => None
  }

  /** The groups of three bytes carry those bytes; zero bytes give zero groups,
      which is what the padding stands for. */
  lemma OctetsOfSextets(b0: byte, b1: byte, b2: byte)
    ensures var v := Sextets(b0, b1, b2); Octets(v[0], v[1], v[2], v[3]) == [b0, b1, b2]
    ensures b2 == 0 ==> Sextets(b0, b1, b2)[3] == 0
    ensures b1 == 0 && b2 == 0 ==> Sextets(b0, b1, b2)[2] == 0
  {
    var v := Sextets(b0, b1, b2);
    assert v[1] / 16 == b0 as int % 4 && v[1] % 16 == b1 as int / 16;
    assert v[2] / 4 == b1 as int % 16 && v[2] % 4 == b2 as int / 64;
  }

  /** The four characters of a group decode to the bytes they came from, also when the
      last one or two bytes are zero and their characters are read as padding. */
  lemma QuantumRoundTrip(b0: byte, b1: byte, b2: byte, pad: nat)
    requires pad <= 2 && (pad >= 1 ==> b2 == 0) && (pad == 2 ==> b1 == 0)
    ensures DecodeBlock(Quantum(b0, b1, b2), pad) == Some([b0, b1, b2][..3 - pad])
  {
    var v := Sextets(b0, b1, b2);
    var q := Quantum(b0, b1, b2);
    forall i | 0 <= i < 4
      ensures Value(q[i]) == Some(v[i])
    {
      ValueOfSymbol(v[i]);
    }
    OctetsOfSextets(b0, b1, b2);
  }

  /** A padded block is decoded from its data characters only. */
  lemma DecodeBlockOfPrefix(s: string, t: string, pad: nat)
    requires |s| == 4 && |t| == 4 && pad <= 2 && s[..4 - pad] == t[..4 - pad]
    ensures DecodeBlock(s, pad) == DecodeBlock(t, pad)
  {
    assert s[0] == t[0] && s[1] == t[1];
    assert pad < 2 ==> s[2] == t[2];
    assert pad < 1 ==> s[3] == t[3];
  }

  /** A text of three bytes or more starts with the group of its first three bytes. */
  lemma EncodeGroup(bs: seq<byte>)
    requires |bs| >= 3
    ensures Encode(bs) == Quantum(bs[0], bs[1], bs[2]) + Encode(bs[3..])
  {
  }

  /** "A" encodes as "QQ==": the pad bits of the last character are zero. */
  lemma EncodeOfA()
    ensures Encode([65]) == "QQ=="
  {
    assert Sextets(65, 0, 0)[..2] == [16, 16];
  }

  /** Every fourth character is a group boundary: the length is 4 * ceil(n / 3). */
  lemma {:induction false} EncodeLength(bs: seq<byte>)
    ensures |Encode(bs)| == 4 * ((|bs| + 2) / 3)
    decreases |bs|
  {
    if |bs| >= 3 {
      EncodeLength(bs[3..]);
      EncodeGroup(bs);
      assert (|bs| + 2) / 3 == (|bs[3..]| + 2) / 3 + 1;
    }
  }

  /** A final group of one byte comes back from its "xy==" block. */
  lemma DecodeEncodeOne(b0: byte)
    ensures Decode(Encode([b0])) == Some([b0])
  {
    var q := Quantum(b0, 0, 0);
    var t := Encode([b0]);
    assert t == q[..2] + "==";
    assert |t| == 4 && t[2] == '=' && t[3] == '=';
    assert Decode(t) == DecodeBlock(t, 2);
    QuantumRoundTrip(b0, 0, 0, 2);
    DecodeBlockOfPrefix(q, t, 2);
    assert [b0, 0 as byte, 0 as byte][..1] == [b0];
  }

  /** A final group of two bytes comes back from its "xyz=" block. */
  lemma DecodeEncodeTwo(b0: byte, b1: byte)
    ensures Decode(Encode([b0, b1])) == Some([b0, b1])
  {
    var q := Quantum(b0, b1, 0);
    var t := Encode([b0, b1]);
    assert t == q[..3] + "=";
    assert t[2] == q[2] != '=';
    assert |t| == 4 && t[3] == '=';
    assert Decode(t) == DecodeBlock(t, 1);
    QuantumRoundTrip(b0, b1, 0, 1);
    DecodeBlockOfPrefix(q, t, 1);
    assert [b0, b1, 0 as byte][..2] == [b0, b1];
  }

  /** A full group in front of a decodable text decodes to its three bytes in front of
      what that text decodes to. */
  lemma DecodeQuantumThen(b0: byte, b1: byte, b2: byte, rest: string, tail: seq<byte>)
    requires Decode(rest) == Some(tail)
    ensures Decode(Quantum(b0, b1, b2) + rest) == Some([b0, b1, b2] + tail)
  {
    var q := Quantum(b0, b1, b2);
    var s := q + rest;
    assert s[..4] == q && s[4..] == rest;
    assert s[2] != '=' && s[3] != '=';
    QuantumRoundTrip(b0, b1, b2, 0);
    assert [b0, b1, b2][..3] == [b0, b1, b2];
  }

  lemma SplitGroup(bs: seq<byte>)
    requires |bs| >= 3
    ensures [bs[0], bs[1], bs[2]] + bs[3..] == bs
  {
  }

  /** One group more in front keeps the round trip. */
  lemma DecodeEncodeGroup(bs: seq<byte>)
    requires |bs| >= 3 && Decode(Encode(bs[3..])) == Some(bs[3..])
    ensures Decode(Encode(bs)) == Some(bs)
  {
    var tail := bs[3..];
    var rest := Encode(tail);
    DecodeQuantumThen(bs[0], bs[1], bs[2], rest, tail);
    EncodeGroup(bs);
    SplitGroup(bs);
  }

  /** Round trip: decoding the encoding of any bytes gives the bytes back. */
  lemma {:induction false} DecodeEncode(bs: seq<byte>)
    ensures Decode(Encode(bs)) == Some(bs)
    decreases |bs|
  {
    if |bs| == 1 {
      assert bs == [bs[0]];
      DecodeEncodeOne(bs[0]);
    } else if |bs| == 2 {
      assert bs == [bs[0], bs[1]];
      DecodeEncodeTwo(bs[0], bs[1]);
    } else if |bs| >= 3 {
      DecodeEncode(bs[3..]);
      DecodeEncodeGroup(bs);
    }
  }
}
