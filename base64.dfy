/** The base64 encoding of section 4 of RFC 4648 (alphabet `A-Z a-z 0-9 + /`,
    `=` padding), as `buffer.toString('base64')` produces it, and a decoder for
    the canonical strings it produces. */
module Base64 {
  import opened Common

  /** The character for a 6-bit value. */
  function SextetChar(v: int): (c: char)
    requires 0 <= v < 64
    ensures IsAlphabet(c)
  {
    if v < 26 then ('A' as int + v) as char
    else if v < 52 then ('a' as int + v - 26) as char
    else if v < 62 then ('0' as int + v - 52) as char
    else if v == 62 then '+'
    else '/'
  }

  predicate IsAlphabet(c: char) {
    'A' <= c <= 'Z' || 'a' <= c <= 'z' || '0' <= c <= '9' || c == '+' || c == '/'
  }

  /** The 6-bit value of an alphabet character. */
  function SextetValue(c: char): (v: Option<int>)
    ensures v.Some? <==> IsAlphabet(c)
    ensures v.Some? ==> 0 <= v.value < 64
  {
    if 'A' <= c <= 'Z' then Some(c as int - 'A' as int)
    else if 'a' <= c <= 'z' then Some(c as int - 'a' as int + 26)
    else if '0' <= c <= '9' then Some(c as int - '0' as int + 52)
    else if c == '+' then Some(62)
    else if c == '/' then Some(63)
    else None
  }

  lemma SextetRoundTrip(v: int)
    requires 0 <= v < 64
    ensures SextetValue(SextetChar(v)) == Some(v)
  {
  }

  /** Three bytes as four characters. */
  function EncodeTriple(b0: byte, b1: byte, b2: byte): (q: string)
    ensures |q| == 4 && IsAlphabet(q[0]) && IsAlphabet(q[1]) && IsAlphabet(q[2]) && IsAlphabet(q[3])
  {
    var x0, x1, x2 := b0 as int, b1 as int, b2 as int;
    [SextetChar(x0 / 4), SextetChar((x0 % 4) * 16 + x1 / 16),
     SextetChar((x1 % 16) * 4 + x2 / 64), SextetChar(x2 % 64)]
  }

  /** The encoding: whole groups of three bytes, then one or two bytes left
      over padded with `==` or `=`. */
  function Encode(b: seq<byte>): (s: string)
    ensures |s| == 4 * ((|b| + 2) / 3)
    decreases |b|
  {
    if |b| == 0 then []
    else if |b| == 1 then
      var x0 := b[0] as int;
      [SextetChar(x0 / 4), SextetChar((x0 % 4) * 16), '=', '=']
    else if |b| == 2 then
      var x0, x1 := b[0] as int, b[1] as int;
      [SextetChar(x0 / 4), SextetChar((x0 % 4) * 16 + x1 / 16), SextetChar((x1 % 16) * 4), '=']
    else
      var rest := Encode(b[3..]);
      assert (|b| + 2) / 3 == (|b| - 3 + 2) / 3 + 1;
      EncodeTriple(b[0], b[1], b[2]) + rest
  }

  /** Whole groups are encoded one after the other. */
  lemma EncodeSplit(b: seq<byte>)
    requires |b| >= 3
    ensures Encode(b) == EncodeTriple(b[0], b[1], b[2]) + Encode(b[3..])
  {
  }

  /** Every character of an encoding is in the alphabet or is `=`. */
  lemma {:induction false} EncodeAlphabet(b: seq<byte>)
    ensures forall i :: 0 <= i < |Encode(b)| ==> IsAlphabet(Encode(b)[i]) || Encode(b)[i] == '='
    decreases |b|
  {
    if |b| >= 3 {
      EncodeSplit(b);
      EncodeAlphabet(b[3..]);
      var q, rest := EncodeTriple(b[0], b[1], b[2]), Encode(b[3..]);
      forall i | 4 <= i < |q + rest| ensures (q + rest)[i] == rest[i - 4] {
      }
    }
  }

  /** Four 6-bit values as three bytes. */
  function DecodeQuad(v0: int, v1: int, v2: int, v3: int): seq<byte>
    requires 0 <= v0 < 64 && 0 <= v1 < 64 && 0 <= v2 < 64 && 0 <= v3 < 64
  {
    [(v0 * 4 + v1 / 16) as byte, ((v1 % 16) * 16 + v2 / 4) as byte, ((v2 % 4) * 64 + v3) as byte]
  }

  /** The bytes of one group of four characters. Only the `last` group may
      end in `==` (one byte) or `=` (two bytes), and then the bits of its last
      character that no byte uses must be zero, as an encoder leaves them. */
  function DecodeGroup(c0: char, c1: char, c2: char, c3: char, last: bool): (r: Option<seq<byte>>)
    ensures r.Some? ==> 1 <= |r.value| <= 3 && (|r.value| < 3 ==> last)
    ensures r.Some? && |r.value| == 1 ==> c2 == '=' && c3 == '=' && SextetValue(c1).Some? && SextetValue(c1).value % 16 == 0
    ensures r.Some? && |r.value| == 2 ==> c3 == '=' && SextetValue(c2).Some? && SextetValue(c2).value % 4 == 0
  {
    var v0, v1, v2, v3 := SextetValue(c0), SextetValue(c1), SextetValue(c2), SextetValue(c3);
    if v0.None? || v1.None? then None
    else if last && c2 == '=' && c3 == '=' then
      if v1.value % 16 != 0 then None
      else Some([(v0.value * 4 + v1.value / 16) as byte])
    else if v2.None? then None
    else if last && c3 == '=' then
      if v2.value % 4 != 0 then None
      else Some([(v0.value * 4 + v1.value / 16) as byte, ((v1.value % 16) * 16 + v2.value / 4) as byte])
    else if v3.None? then None
    else Some(DecodeQuad(v0.value, v1.value, v2.value, v3.value))
  }

  /** Decoding of canonical base64: groups of four alphabet characters, the
      last of which may end in `==` or `=` with its unused bits zero. Anything
      else is None. */
  function Decode(s: string): (r: Option<seq<byte>>)
    decreases |s|
  {
    if |s| == 0 then Some([])
    else if |s| < 4 then None
    else
      match DecodeGroup(s[0], s[1], s[2], s[3], |s| == 4)
      case None => None
      case Some(group) =>
        if |group| < 3 then Some(group)
        else
          match Decode(s[4..])
          case None => None
          case Some(rest) => Some(group + rest)
  }

  lemma TripleRoundTrip(b0: byte, b1: byte, b2: byte)
    ensures var x0, x1, x2 := b0 as int, b1 as int, b2 as int;
      DecodeQuad(x0 / 4, (x0 % 4) * 16 + x1 / 16, (x1 % 16) * 4 + x2 / 64, x2 % 64) == [b0, b1, b2]
  {
    var x0, x1, x2 := b0 as int, b1 as int, b2 as int;
    var s1 := (x0 % 4) * 16 + x1 / 16;
    var s2 := (x1 % 16) * 4 + x2 / 64;
    assert s1 / 16 == x0 % 4 && s1 % 16 == x1 / 16;
    assert s2 / 4 == x1 % 16 && s2 % 4 == x2 / 64;
  }

  /** A whole group decodes to its three bytes, last or not. */
  lemma GroupOfTriple(b0: byte, b1: byte, b2: byte, last: bool)
    ensures var q := EncodeTriple(b0, b1, b2);
      DecodeGroup(q[0], q[1], q[2], q[3], last) == Some([b0, b1, b2])
  {
    var x0, x1, x2 := b0 as int, b1 as int, b2 as int;
    SextetRoundTrip(x0 / 4);
    SextetRoundTrip((x0 % 4) * 16 + x1 / 16);
    SextetRoundTrip((x1 % 16) * 4 + x2 / 64);
    SextetRoundTrip(x2 % 64);
    TripleRoundTrip(b0, b1, b2);
  }

  lemma DecodeEncodeOne(b0: byte)
    ensures Decode(Encode([b0])) == Some([b0])
  {
    var x0 := b0 as int;
    var q := Encode([b0]);
    SextetRoundTrip(x0 / 4);
    SextetRoundTrip((x0 % 4) * 16);
    assert (x0 / 4) * 4 + ((x0 % 4) * 16) / 16 == x0;
    assert ((x0 % 4) * 16) % 16 == 0;
    assert DecodeGroup(q[0], q[1], q[2], q[3], true) == Some([b0]);
  }

  lemma DecodeEncodeTwo(b0: byte, b1: byte)
    ensures Decode(Encode([b0, b1])) == Some([b0, b1])
  {
    var x0, x1 := b0 as int, b1 as int;
    var q := Encode([b0, b1]);
    var s1 := (x0 % 4) * 16 + x1 / 16;
    var s2 := (x1 % 16) * 4;
    SextetRoundTrip(x0 / 4);
    SextetRoundTrip(s1);
    SextetRoundTrip(s2);
    assert s1 / 16 == x0 % 4 && s1 % 16 == x1 / 16;
    assert (x0 / 4) * 4 + s1 / 16 == x0;
    assert (s1 % 16) * 16 + s2 / 4 == x1;
    assert s2 % 4 == 0;
    assert DecodeGroup(q[0], q[1], q[2], q[3], true) == Some([b0, b1]);
  }

  /** A whole group in front of decodable text decodes to its bytes in front. */
  lemma DecodeTriplePrefix(b0: byte, b1: byte, b2: byte, rest: string, r: seq<byte>)
    requires Decode(rest) == Some(r)
    ensures Decode(EncodeTriple(b0, b1, b2) + rest) == Some([b0, b1, b2] + r)
  {
    var q := EncodeTriple(b0, b1, b2);
    var s := q + rest;
    GroupOfTriple(b0, b1, b2, |s| == 4);
    assert s[0] == q[0] && s[1] == q[1] && s[2] == q[2] && s[3] == q[3];
    assert s[4..] == rest;
  }

  /** Encodings of at most two bytes decode back. */
  lemma DecodeEncodeShort(b: seq<byte>)
    requires |b| <= 2
    ensures Decode(Encode(b)) == Some(b)
  {
    if |b| == 1 {
      assert b == [b[0]];
      DecodeEncodeOne(b[0]);
    } else if |b| == 2 {
      assert b == [b[0], b[1]];
      DecodeEncodeTwo(b[0], b[1]);
    }
  }

  lemma HeadAndTail(b: seq<byte>)
    requires |b| >= 3
    ensures [b[0], b[1], b[2]] + b[3..] == b
  {
  }

  /** A whole group in front decodes back when the rest does. */
  lemma DecodeEncodeStep(b: seq<byte>)
    requires |b| >= 3 && Decode(Encode(b[3..])) == Some(b[3..])
    ensures Decode(Encode(b)) == Some(b)
  {
    EncodeSplit(b);
    DecodeTriplePrefix(b[0], b[1], b[2], Encode(b[3..]), b[3..]);
    HeadAndTail(b);
  }

  /** Decoding undoes encoding. */
  lemma {:induction false} DecodeEncode(b: seq<byte>)
    ensures Decode(Encode(b)) == Some(b)
    decreases |b|
  {
    if |b| <= 2 {
      DecodeEncodeShort(b);
    } else {
      DecodeEncode(b[3..]);
      DecodeEncodeStep(b);
    }
  }

  /** No encoding contains `:`, so none starts with `data:`. */
  lemma EncodeHasNoColon(b: seq<byte>)
    ensures ':' !in Encode(b)
  {
    EncodeAlphabet(b);
  }
}
