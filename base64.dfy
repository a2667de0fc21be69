/** The base 64 encoding of section 4 of RFC 4648: every three octets
    become four characters of a 64-letter alphabet, and a final group of
    one or two octets is completed with `=` padding. Decoding is modelled
    strictly: the input must be a whole number of four-character groups of
    alphabet letters, with padding only at the end of the last group. */
module Base64 {
  import opened Common

  const Pad: char := '='

  /** The letter for a 6-bit value (Table 1 of RFC 4648). */
  function SextetChar(v: int): (r: char)
    requires 0 <= v < 64
    ensures InAlphabet(r) && r != ','
  {
    if v < 26 then ('A' as int + v) as char
    else if v < 52 then ('a' as int + v - 26) as char
    else if v < 62 then ('0' as int + v - 52) as char
    else if v == 62 then '+'
    else '/'
  }

  /** The 6-bit value of an alphabet letter; `None` for any other character. */
  function SextetValue(c: char): (r: Option<int>)
    ensures r.Some? ==> 0 <= r.value < 64
  {
    if 'A' <= c <= 'Z' then Some(c as int - 'A' as int)
    else if 'a' <= c <= 'z' then Some(c as int - 'a' as int + 26)
    else if '0' <= c <= '9' then Some(c as int - '0' as int + 52)
    else if c == '+' then Some(62)
    else if c == '/' then Some(63)
    else None
  }

  predicate InAlphabet(c: char)
  {
    SextetValue(c).Some?
  }

  /** Every 6-bit value is recovered from its letter. */
  lemma SextetRoundTrip(v: int)
    requires 0 <= v < 64
    ensures SextetValue(SextetChar(v)) == Some(v)
  {
  }

  /** The four letters of a full three-octet group. */
  function EncodeTriple(b0: Byte, b1: Byte, b2: Byte): (r: string)
    ensures |r| == 4 && forall i :: 0 <= i < 4 ==> InAlphabet(r[i]) && r[i] != ','
  {
    [SextetChar(b0 / 4), SextetChar((b0 % 4) * 16 + b1 / 16),
     SextetChar((b1 % 16) * 4 + b2 / 64), SextetChar(b2 % 64)]
  }

  /** `base64.b64encode`: four characters per started group of three octets,
      each an alphabet letter or padding. */
  function Encode(b: Bytes): (r: string)
    ensures |r| % 4 == 0
    ensures |b| <= 2 ==> |r| == if b == [] then 0 else 4
    ensures forall i :: 0 <= i < |r| ==> InAlphabet(r[i]) || r[i] == Pad
    ensures ',' !in r
  {
    if |b| == 0 then []
    else if |b| == 1 then
      [SextetChar(b[0] / 4), SextetChar((b[0] % 4) * 16), Pad, Pad]
    else if |b| == 2 then
      [SextetChar(b[0] / 4), SextetChar((b[0] % 4) * 16 + b[1] / 16),
       SextetChar((b[1] % 16) * 4), Pad]
    else
      EncodeTriple(b[0], b[1], b[2]) + Encode(b[3..])
  }

  /** Decodes one group of four characters; padding is accepted only when
      the group is the last one. */
  function DecodeQuad(q: string, last: bool): (r: Option<Bytes>)
    requires |q| == 4
    ensures r.Some? ==> 1 <= |r.value| <= 3
    ensures r.Some? && |r.value| < 3 ==> last
    ensures r.Some? ==> forall i :: 0 <= i < 4 ==> InAlphabet(q[i]) || q[i] == Pad
  {
    var v0, v1 := SextetValue(q[0]), SextetValue(q[1]);
    if v0.None? || v1.None? then None
    else if q[2] == Pad then
      if last && q[3] == Pad then Some([v0.value * 4 + v1.value / 16]) else None
    else
      var v2 := SextetValue(q[2]);
      if v2.None? then None
      else if q[3] == Pad then
        if last then Some([v0.value * 4 + v1.value / 16, (v1.value % 16) * 16 + v2.value / 4])
        else None
      else
        var v3 := SextetValue(q[3]);
        if v3.None? then None
        else Some([v0.value * 4 + v1.value / 16, (v1.value % 16) * 16 + v2.value / 4,
                   (v2.value % 4) * 64 + v3.value])
  }

  /** `base64.b64decode`, strict: `None` when the text is not well-formed
      base 64; only a whole number of groups can decode. */
  function Decode(s: string): (r: Option<Bytes>)
    ensures r.Some? ==> |s| % 4 == 0
    ensures r.Some? ==> forall i :: 0 <= i < |s| ==> InAlphabet(s[i]) || s[i] == Pad
    ensures r.Some? ==> |r.value| <= |s| / 4 * 3
    ensures r.Some? && s != [] ==> |s| / 4 * 3 - 2 <= |r.value|
    decreases |s|
  {
    if |s| % 4 != 0 then None
    else if s == [] then Some([])
    else
      match DecodeQuad(s[..4], |s| == 4)
      case None => None
      case Some(head) =>
        match Decode(s[4..])
        case None => None
        case Some(tail) =>
          assert forall i :: 4 <= i < |s| ==> s[i] == s[4..][i - 4];
          Some(head + tail)
  }

  lemma FirstOctet(b0: Byte, x: int)
    requires 0 <= x < 16
    ensures (b0 / 4) * 4 + ((b0 % 4) * 16 + x) / 16 == b0
  {
    assert ((b0 % 4) * 16 + x) / 16 == b0 % 4;
  }

  lemma SecondOctet(b1: Byte, y: int)
    requires 0 <= y < 4
    ensures (((b1 / 16) % 16) * 16) + ((b1 % 16) * 4 + y) / 4 == b1
  {
    assert b1 / 16 < 16;
    assert ((b1 % 16) * 4 + y) / 4 == b1 % 16;
  }

  lemma ThirdOctet(b2: Byte)
    ensures (((b2 / 64) % 4) * 64) + b2 % 64 == b2
  {
    assert b2 / 64 < 4;
  }

  /** The letters of one full group decode to its three octets. */
  lemma TripleRoundTrip(b0: Byte, b1: Byte, b2: Byte, last: bool)
    ensures DecodeQuad(EncodeTriple(b0, b1, b2), last) == Some([b0, b1, b2])
  {
    var c1 := (b0 % 4) * 16 + b1 / 16;
    var c2 := (b1 % 16) * 4 + b2 / 64;
    SextetRoundTrip(b0 / 4);
    SextetRoundTrip(c1);
    SextetRoundTrip(c2);
    SextetRoundTrip(b2 % 64);
    FirstOctet(b0, b1 / 16);
    assert c1 % 16 == b1 / 16;
    SecondOctet(b1, b2 / 64);
    assert c2 % 4 == b2 / 64;
    ThirdOctet(b2);
  }

  /** The two letters and padding of a final one-octet group decode to it. */
  lemma SingleRoundTrip(b0: Byte)
    ensures DecodeQuad([SextetChar(b0 / 4), SextetChar((b0 % 4) * 16), Pad, Pad], true) == Some([b0])
  {
    SextetRoundTrip(b0 / 4);
    SextetRoundTrip((b0 % 4) * 16);
    FirstOctet(b0, 0);
  }

  /** The three letters and padding of a final two-octet group decode to it. */
  lemma PairRoundTrip(b0: Byte, b1: Byte)
    ensures DecodeQuad([SextetChar(b0 / 4), SextetChar((b0 % 4) * 16 + b1 / 16),
                        SextetChar((b1 % 16) * 4), Pad], true) == Some([b0, b1])
  {
    var c1 := (b0 % 4) * 16 + b1 / 16;
    SextetRoundTrip(b0 / 4);
    SextetRoundTrip(c1);
    SextetRoundTrip((b1 % 16) * 4);
    FirstOctet(b0, b1 / 16);
    assert c1 % 16 == b1 / 16;
    SecondOctet(b1, 0);
  }

  /** Decoding a group followed by more text: the group's octets, then the rest's. */
  lemma DecodeConcat(q: string, t: string, head: Bytes, tail: Bytes)
    requires |q| == 4
    requires DecodeQuad(q, t == []) == Some(head)
    requires Decode(t) == Some(tail)
    ensures Decode(q + t) == Some(head + tail)
  {
    var s := q + t;
    assert s[..4] == q && s[4..] == t;
  }

  /** Round trip for a one-octet input. */
  lemma OneOctetRoundTrip(b: Bytes)
    requires |b| == 1
    ensures Decode(Encode(b)) == Some(b)
  {
    var s := Encode(b);
    SingleRoundTrip(b[0]);
    DecodeConcat(s, [], [b[0]], []);
    assert s + [] == s;
    assert [b[0]] + [] == b;
  }

  /** Round trip for a two-octet input. */
  lemma TwoOctetRoundTrip(b: Bytes)
    requires |b| == 2
    ensures Decode(Encode(b)) == Some(b)
  {
    var s := Encode(b);
    PairRoundTrip(b[0], b[1]);
    DecodeConcat(s, [], [b[0], b[1]], []);
    assert s + [] == s;
    assert [b[0], b[1]] + [] == b;
  }

  /** Round trip of RFC 4648: decoding the encoding gives back the octets. */
  lemma {:induction false} DecodeEncode(b: Bytes)
    ensures Decode(Encode(b)) == Some(b)
  {
    if |b| == 1 {
      OneOctetRoundTrip(b);
    } else if |b| == 2 {
      TwoOctetRoundTrip(b);
    } else if |b| >= 3 {
      var rest := b[3..];
      DecodeEncode(rest);
      GroupThenRest(b[0], b[1], b[2], rest, Encode(rest));
      assert Encode(b) == EncodeTriple(b[0], b[1], b[2]) + Encode(rest);
      assert [b[0], b[1], b[2]] + rest == b;
    }
  }

  /** A full group in front of a decodable rest decodes to the group's three
      octets in front of the rest's. */
  lemma GroupThenRest(b0: Byte, b1: Byte, b2: Byte, rest: Bytes, t: string)
    requires Decode(t) == Some(rest)
    ensures Decode(EncodeTriple(b0, b1, b2) + t) == Some([b0, b1, b2] + rest)
  {
    TripleRoundTrip(b0, b1, b2, t == []);
    DecodeConcat(EncodeTriple(b0, b1, b2), t, [b0, b1, b2], rest);
  }
}
