/** UTF-8 encoding of a string (Java's String.getBytes(StandardCharsets.UTF_8)
    and Vert.x's Buffer.buffer(String)), with a decoder that inverts it. */
module Utf8 {
  import opened Wrappers
  import opened Bytes

  /** The encoding of one Unicode scalar value: 1 to 4 bytes, per section 3 of RFC 3629.
      The code point is split into 6-bit groups by repeated division by 64. */
  function EncodeChar(c: char): (r: seq<byte>)
    ensures 1 <= |r| <= 4
    ensures |r| == if c as int < 0x80 then 1 else if c as int < 0x800 then 2 else if c as int < 0x10000 then 3 else 4
    ensures |r| == SequenceLength(r[0])
    ensures forall k :: 1 <= k < |r| ==> IsContinuation(r[k])
  {
    var n := c as int;
    if n < 0x80 then [n as byte]
    else
      var q1, r0 := n / 64, n % 64;
      var q2, r1 := q1 / 64, q1 % 64;
      var q3, r2 := q2 / 64, q2 % 64;
      if n < 0x800 then [(0xC0 + q1) as byte, (0x80 + r0) as byte]
      else if n < 0x10000 then [(0xE0 + q2) as byte, (0x80 + r1) as byte, (0x80 + r0) as byte]
      else [(0xF0 + q3) as byte, (0x80 + r2) as byte, (0x80 + r1) as byte, (0x80 + r0) as byte]
  }

  predicate IsContinuation(b: byte) { 0x80 <= b < 0xC0 }

  /** How many bytes a sequence starting with lead byte `b` occupies; 0 for a byte that cannot lead. */
  function SequenceLength(b: byte): nat
  {
    if b < 0x80 then 1
    else if 0xC0 <= b < 0xE0 then 2
    else if 0xE0 <= b < 0xF0 then 3
    else if 0xF0 <= b < 0xF8 then 4
    else 0
  }

  predicate IsScalarValue(n: int) { 0 <= n < 0xD800 || 0xE000 <= n < 0x110000 }

  /** The encoding of a whole string, character after character. */
  function Encode(s: string): (r: seq<byte>)
    ensures |s| <= |r| <= 4 * |s|
  {
    if s == [] then [] else EncodeChar(s[0]) + Encode(s[1..])
  }

  /** The code point carried by one complete byte sequence whose length matches its lead byte. */
  function CodePoint(bs: seq<byte>): int
    requires 1 <= |bs| <= 4
  {
    var b0 := bs[0] as int;
    if |bs| == 1 then b0
    else if |bs| == 2 then (b0 - 0xC0) * 64 + (bs[1] as int - 0x80)
    else if |bs| == 3 then ((b0 - 0xE0) * 64 + (bs[1] as int - 0x80)) * 64 + (bs[2] as int - 0x80)
    else (((b0 - 0xF0) * 64 + (bs[1] as int - 0x80)) * 64 + (bs[2] as int - 0x80)) * 64 + (bs[3] as int - 0x80)
  }

  /** Decodes bytes back into a string, inverting Encode (DecodeEncode); None on bytes that do
      not split into sequences of the announced lengths. It is no validating decoder: it also
      accepts forms Encode never yields, such as the overlong [0xC0, 0x80]. */
  function Decode(bs: seq<byte>): Option<string>
    decreases |bs|
  {
    if bs == [] then Some([])
    else
      var n := SequenceLength(bs[0]);
      if n == 0 || |bs| < n then None
      else if exists k :: 1 <= k < n && !IsContinuation(bs[k]) then None
      else
        var cp := CodePoint(bs[..n]);
        if !IsScalarValue(cp) then None
        else match Decode(bs[n..])
          case None => None
          case Some(rest) => Some([cp as char] + rest)
  }

  /** One character's bytes carry its code point. */
  lemma CodePointOfEncodeChar(c: char)
    ensures CodePoint(EncodeChar(c)) == c as int
  {
    var n := c as int;
    var q1, r0 := n / 64, n % 64;
    var q2, r1 := q1 / 64, q1 % 64;
    var q3, r2 := q2 / 64, q2 % 64;
    assert n == q1 * 64 + r0;
    assert q1 == q2 * 64 + r1;
    assert q2 == q3 * 64 + r2;
  }

  /** ASCII text encodes to one byte per character, each equal to the character code. */
  lemma {:induction false} EncodeAscii(s: string)
    requires forall i :: 0 <= i < |s| ==> s[i] as int < 0x80
    ensures |Encode(s)| == |s|
    ensures forall i :: 0 <= i < |s| ==> Encode(s)[i] as int == s[i] as int
  {
    if s != [] {
      EncodeAscii(s[1..]);
    }
  }

  /** An ASCII text encodes to the bytes of its character codes. */
  lemma AsciiEncodesAs(s: string, bytes: seq<byte>)
    requires |s| == |bytes|
    requires forall i :: 0 <= i < |s| ==> s[i] as int < 0x80 && s[i] as int == bytes[i] as int
    ensures Encode(s) == bytes
  {
    EncodeAscii(s);
  }

  /** Encoding distributes over concatenation. */
  lemma {:induction false} EncodeAppend(a: string, b: string)
    ensures Encode(a + b) == Encode(a) + Encode(b)
  {
    if a == [] {
      assert a + b == b;
    } else {
      assert (a + b)[1..] == a[1..] + b;
      EncodeAppend(a[1..], b);
    }
  }

  /** Round trip: decoding the encoding of any string gives the string back. */
  lemma {:induction false} DecodeEncode(s: string)
    ensures Decode(Encode(s)) == Some(s)
  {
    if s != [] {
      var e := EncodeChar(s[0]);
      var bs := Encode(s);
      assert bs == e + Encode(s[1..]);
      assert bs[..|e|] == e;
      assert bs[|e|..] == Encode(s[1..]);
      assert SequenceLength(bs[0]) == |e|;
      assert forall k :: 1 <= k < |e| ==> bs[k] == e[k];
      CodePointOfEncodeChar(s[0]);
      DecodeEncode(s[1..]);
      assert [s[0]] + s[1..] == s;
    }
  }
}
