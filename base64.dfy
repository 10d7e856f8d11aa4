/** The standard, padded base64 encoding of section 4 of RFC 4648, as
    `Buffer.prototype.toString('base64')` produces it (app/api/swap/image/route.ts:59). */
module Base64 {
  import opened Common

  /** The character for a 6-bit group: A-Z, a-z, 0-9, then `+` and `/`. */
  function Digit(d: int): (c: char)
    requires 0 <= d < 64
    ensures IsAsciiLetter(c) || IsAsciiDigit(c) || c == '+' || c == '/'
  {
    if d < 26 then ('A' as int + d) as char
    else if d < 52 then ('a' as int + (d - 26)) as char
    else if d < 62 then ('0' as int + (d - 52)) as char
    else if d == 62 then '+'
    else '/'
  }

  /** The 6-bit group a character stands for, if it is in the alphabet. */
  function DigitValue(c: char): (r: Option<int>)
    ensures r.Some? ==> 0 <= r.value < 64 && Digit(r.value) == c
  {
    if IsAsciiUpper(c) then Some(c as int - 'A' as int)
    else if IsAsciiLower(c) then Some(c as int - 'a' as int + 26)
    else if IsAsciiDigit(c) then Some(c as int - '0' as int + 52)
    else if c == '+' then Some(62)
    else if c == '/' then Some(63)
    else None
  }

  lemma DigitRoundTrip(d: int)
    requires 0 <= d < 64
    ensures DigitValue(Digit(d)) == Some(d)
  {
  }

  /** Three octets become four characters; a final group of one or two octets is
      padded with `=` to four characters. */
  function Encode(bs: seq<Byte>): (s: string)
    ensures |s| == 4 * ((|bs| + 2) / 3)
  {
    if |bs| == 0 then ""
    else if |bs| == 1 then
      [Digit(bs[0] / 4), Digit((bs[0] % 4) * 16), '=', '=']
    else if |bs| == 2 then
      [Digit(bs[0] / 4), Digit((bs[0] % 4) * 16 + bs[1] / 16), Digit((bs[1] % 16) * 4), '=']
    else
      Quad(bs[0], bs[1], bs[2]) + Encode(bs[3..])
  }

  /** The four characters of a full group of three octets. */
  function Quad(b0: Byte, b1: Byte, b2: Byte): (s: string)
    ensures |s| == 4
  {
    GroupDigitBounds(b0, b1, b2);
    [Digit(b0 / 4), Digit((b0 % 4) * 16 + b1 / 16), Digit((b1 % 16) * 4 + b2 / 64), Digit(b2 % 64)]
  }

  /** Decoding, the inverse the round trip is stated against. */
  function Decode(s: string): Option<seq<Byte>>
    decreases |s|
  {
    if s == [] then Some([])
    else if |s| < 4 then None
    else
      var v0, v1, v2, v3 := DigitValue(s[0]), DigitValue(s[1]), DigitValue(s[2]), DigitValue(s[3]);
      if v0.None? || v1.None? then None
      else if |s| == 4 && s[2] == '=' && s[3] == '=' then
        Some([v0.value * 4 + v1.value / 16])
      else if |s| == 4 && v2.Some? && s[3] == '=' then
        Some([v0.value * 4 + v1.value / 16, (v1.value % 16) * 16 + v2.value / 4])
      else if v2.None? || v3.None? then None
      else
        var rest := Decode(s[4..]);
        if rest.None? then None
        else Some(GroupOctets(v0.value, v1.value, v2.value, v3.value) + rest.value)
  }

  /** The three octets a group of four 6-bit values decodes to. */
  function GroupOctets(v0: int, v1: int, v2: int, v3: int): seq<int>
  {
    [v0 * 4 + v1 / 16, (v1 % 16) * 16 + v2 / 4, (v2 % 4) * 64 + v3]
  }

  lemma GroupRoundTrip(b0: Byte, b1: Byte, b2: Byte)
    ensures GroupOctets(b0 / 4, (b0 % 4) * 16 + b1 / 16, (b1 % 16) * 4 + b2 / 64, b2 % 64)
         == [b0, b1, b2]
  {
  }

  lemma DecodeOneOctet(b0: Byte)
    ensures Decode(Encode([b0])) == Some([b0])
  {
    DigitRoundTrip(b0 / 4);
    DigitRoundTrip((b0 % 4) * 16);
  }

  lemma DecodeTwoOctets(b0: Byte, b1: Byte)
    ensures Decode(Encode([b0, b1])) == Some([b0, b1])
  {
    DigitRoundTrip(b0 / 4);
    DigitRoundTrip((b0 % 4) * 16 + b1 / 16);
    DigitRoundTrip((b1 % 16) * 4);
    var s := Encode([b0, b1]);
    assert s[2] == Digit((b1 % 16) * 4) && s[2] != '=';
  }

  /** Decoding undoes encoding. */
  lemma {:induction false} DecodeEncode(bs: seq<Byte>)
    ensures Decode(Encode(bs)) == Some(bs)
  {
    if |bs| == 1 {
      assert bs == [bs[0]];
      DecodeOneOctet(bs[0]);
    } else if |bs| == 2 {
      assert bs == [bs[0], bs[1]];
      DecodeTwoOctets(bs[0], bs[1]);
    } else if |bs| >= 3 {
      DecodeFirstGroup(bs);
      DecodeEncode(bs[3..]);
      assert bs == bs[..3] + bs[3..];
    }
  }

  /** The first four characters of an encoding of three or more octets decode to the
      first three octets, in front of the decoding of the rest. */
  lemma DecodeFirstGroup(bs: seq<Byte>)
    requires |bs| >= 3
    ensures var rest := Decode(Encode(bs[3..]));
      Decode(Encode(bs)) == if rest.None? then None else Some(bs[..3] + rest.value)
  {
    var t := Encode(bs[3..]);
    var q := Quad(bs[0], bs[1], bs[2]);
    EncodeFirstGroup(bs);
    assert Decode(Encode(bs)) == Decode(q + t);
    DecodeQuad(bs[0], bs[1], bs[2], t);
    FirstThree(bs);
  }

  lemma FirstThree(bs: seq<Byte>)
    requires |bs| >= 3
    ensures bs[..3] == [bs[0], bs[1], bs[2]]
  {
  }

  lemma EncodeFirstGroup(bs: seq<Byte>)
    requires |bs| >= 3
    ensures Encode(bs) == Quad(bs[0], bs[1], bs[2]) + Encode(bs[3..])
  {
  }

  /** A full group decodes to its three octets in front of the decoding of what follows. */
  lemma DecodeQuad(b0: Byte, b1: Byte, b2: Byte, t: string)
    ensures Decode(Quad(b0, b1, b2) + t)
         == if Decode(t).None? then None else Some([b0, b1, b2] + Decode(t).value)
  {
    var d0, d1 := b0 / 4, (b0 % 4) * 16 + b1 / 16;
    var d2, d3 := (b1 % 16) * 4 + b2 / 64, b2 % 64;
    GroupDigitBounds(b0, b1, b2);
    DecodeDigits(d0, d1, d2, d3, t);
    GroupRoundTrip(b0, b1, b2);
  }

  /** Four alphabet characters in front of a string decode to their group's three
      octets in front of that string's decoding. */
  lemma DecodeDigits(d0: int, d1: int, d2: int, d3: int, t: string)
    requires 0 <= d0 < 64 && 0 <= d1 < 64 && 0 <= d2 < 64 && 0 <= d3 < 64
    ensures Decode([Digit(d0), Digit(d1), Digit(d2), Digit(d3)] + t)
         == if Decode(t).None? then None else Some(GroupOctets(d0, d1, d2, d3) + Decode(t).value)
  {
    var s := [Digit(d0), Digit(d1), Digit(d2), Digit(d3)] + t;
    DigitRoundTrip(d0);
    DigitRoundTrip(d1);
    DigitRoundTrip(d2);
    DigitRoundTrip(d3);
    assert s[0] == Digit(d0) && s[1] == Digit(d1) && s[2] == Digit(d2) && s[3] == Digit(d3);
    assert s[4..] == t;
  }

  /** The four 6-bit groups of three octets. */
  lemma GroupDigitBounds(b0: Byte, b1: Byte, b2: Byte)
    ensures 0 <= b0 / 4 < 64 && 0 <= (b0 % 4) * 16 + b1 / 16 < 64
    ensures 0 <= (b1 % 16) * 4 + b2 / 64 < 64 && 0 <= b2 % 64 < 64
  {
  }

  /** Distinct octet strings never share an encoding. */
  lemma EncodeInjective(a: seq<Byte>, b: seq<Byte>)
    requires Encode(a) == Encode(b)
    ensures a == b
  {
    DecodeEncode(a);
    DecodeEncode(b);
  }

  predicate EncodedChar(s: string, i: int)
    requires 0 <= i < |s|
  {
    DigitValue(s[i]).Some? || (s[i] == '=' && i + 2 >= |s|)
  }

  /** Every character of an encoding is in the alphabet or is padding, and padding
      only appears in the last two positions. */
  lemma {:induction false} EncodeAlphabet(bs: seq<Byte>)
    ensures forall i :: 0 <= i < |Encode(bs)| ==> EncodedChar(Encode(bs), i)
  {
    var s := Encode(bs);
    if |bs| == 1 || |bs| == 2 {
      DigitRoundTrip(bs[0] / 4);
      DigitRoundTrip((bs[0] % 4) * 16 + (if |bs| == 2 then bs[1] / 16 else 0));
      if |bs| == 2 {
        DigitRoundTrip((bs[1] % 16) * 4);
      }
    } else if |bs| >= 3 {
      EncodeAlphabet(bs[3..]);
      var t := Encode(bs[3..]);
      DigitRoundTrip(bs[0] / 4);
      DigitRoundTrip((bs[0] % 4) * 16 + bs[1] / 16);
      DigitRoundTrip((bs[1] % 16) * 4 + bs[2] / 64);
      DigitRoundTrip(bs[2] % 64);
      forall i | 0 <= i < |s|
        ensures EncodedChar(s, i)
      {
        if i >= 4 {
          assert s[i] == t[i - 4];
          assert EncodedChar(t, i - 4);
        }
      }
    }
  }
}
