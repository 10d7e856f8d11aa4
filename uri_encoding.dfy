/** Percent-encoding as the payment callback uses it: ECMA-262 `encodeURIComponent`
    (UTF-8 per RFC 3629, escapes per section 2.1 of RFC 3986), and the gateway's dialect
    of it (lowercase, `%20` as `+`, and `!'()*` escaped so that only the unreserved set
    of section 2.3 of RFC 3986 stays literal) — lib/ecpay.ts:165-168. */
module UriEncoding {
  import opened Common

  /** The UTF-8 encoding (RFC 3629) of one Unicode scalar value. */
  function Utf8(c: char): (bs: seq<Byte>)
    ensures 1 <= |bs| <= 4
    ensures (c as int) < 0x80 ==> bs == [c as int]
    ensures (c as int) >= 0x80 ==> forall i :: 0 <= i < |bs| ==> bs[i] >= 0x80
  {
    var n := c as int;
    if n < 0x80 then [n]
    else if n < 0x800 then [0xC0 + n / 64, 0x80 + n % 64]
    else if n < 0x10000 then [0xE0 + n / 4096, 0x80 + (n / 64) % 64, 0x80 + n % 64]
    else [0xF0 + n / 262144, 0x80 + (n / 4096) % 64, 0x80 + (n / 64) % 64, 0x80 + n % 64]
  }

  function HexUpper(d: int): (c: char)
    requires 0 <= d < 16
    ensures IsAsciiDigit(c) || 'A' <= c <= 'F'
  {
    if d < 10 then ('0' as int + d) as char else ('A' as int + d - 10) as char
  }

  function HexLower(d: int): (c: char)
    requires 0 <= d < 16
    ensures IsAsciiDigit(c) || 'a' <= c <= 'f'
  {
    if d < 10 then ('0' as int + d) as char else ('a' as int + d - 10) as char
  }

  predicate IsHexLower(c: char)
  {
    IsAsciiDigit(c) || 'a' <= c <= 'f'
  }

  /** `%XX` with uppercase hexadecimal digits, as `encodeURIComponent` writes it. */
  function PctUpper(b: Byte): string
  {
    ['%', HexUpper(b / 16), HexUpper(b % 16)]
  }

  function PctLower(b: Byte): string
  {
    ['%', HexLower(b / 16), HexLower(b % 16)]
  }

  function PctUpperAll(bs: seq<Byte>): string
  {
    if bs == [] then "" else PctUpper(bs[0]) + PctUpperAll(bs[1..])
  }

  function PctLowerAll(bs: seq<Byte>): string
  {
    if bs == [] then "" else PctLower(bs[0]) + PctLowerAll(bs[1..])
  }

  /** `Number.prototype.toString(16)` on a non-negative integer. */
  function ToBase16(n: nat): (s: string)
    ensures |s| >= 1
  {
    if n < 16 then [HexLower(n)] else ToBase16(n / 16) + [HexLower(n % 16)]
  }

  /** The characters `encodeURIComponent` leaves alone: uriAlpha, DecimalDigit and
      uriMark of ECMA-262. */
  predicate UriUnescaped(c: char)
  {
    IsAsciiLetter(c) || IsAsciiDigit(c) || c in "-_.!~*'()"
  }

  /** The characters the gateway's dialect re-escapes after `encodeURIComponent`. */
  predicate IsMark(c: char)
  {
    c in "!'()*"
  }

  /** The unreserved characters of section 2.3 of RFC 3986. */
  predicate Unreserved(c: char)
  {
    IsAsciiLetter(c) || IsAsciiDigit(c) || c in "-._~"
  }

  function EncodeUriChar(c: char): string
  {
    if UriUnescaped(c) then [c] else PctUpperAll(Utf8(c))
  }

  /** `encodeURIComponent` on a string of Unicode scalar values (it cannot throw on
      such a string: only a lone surrogate makes it throw). */
  function EncodeURIComponent(s: string): (r: string)
  {
    if s == [] then "" else EncodeUriChar(s[0]) + EncodeURIComponent(s[1..])
  }

  /** `.replace(/%20/g, '+')`: a left-to-right scan over non-overlapping occurrences. */
  function ReplacePct20(s: string): string
    decreases |s|
  {
    if |s| < 3 then s
    else if s[..3] == "%20" then "+" + ReplacePct20(s[3..])
    else [s[0]] + ReplacePct20(s[1..])
  }

  /** `.replace(/[!'()*]/g, (c) => '%' + c.charCodeAt(0).toString(16))`. */
  function EscapeMarks(s: string): string
  {
    if s == [] then ""
    else (if IsMark(s[0]) then "%" + ToBase16(s[0] as int) else [s[0]]) + EscapeMarks(s[1..])
  }

  /** The encoded string the signature is computed over (lib/ecpay.ts:165-168). */
  function GatewayEncode(s: string): string
  {
    EscapeMarks(ReplacePct20(LowerAscii(EncodeURIComponent(s))))
  }

  // ---------------------------------------------------------------------------
  // An independent, character-by-character definition of the same dialect

  function DialectByte(b: Byte): string
  {
    if b == 0x20 then "+" else PctLower(b)
  }

  function DialectBytes(bs: seq<Byte>): string
  {
    if bs == [] then "" else DialectByte(bs[0]) + DialectBytes(bs[1..])
  }

  /** An unreserved character stands for itself in lowercase; any other character is
      written as its UTF-8 bytes, a space byte as `+` and every other byte as `%xx`. */
  function DialectChar(c: char): string
  {
    if Unreserved(c) then [LowerChar(c)] else DialectBytes(Utf8(c))
  }

  function DialectEncode(s: string): string
  {
    if s == [] then "" else DialectChar(s[0]) + DialectEncode(s[1..])
  }

  // ---------------------------------------------------------------------------
  // The pipeline equals the reference definition

  lemma {:induction false} LowerPctUpperAll(bs: seq<Byte>)
    ensures LowerAscii(PctUpperAll(bs)) == PctLowerAll(bs)
  {
    if bs != [] {
      LowerPctUpperAll(bs[1..]);
      LowerAsciiConcat(PctUpper(bs[0]), PctUpperAll(bs[1..]));
      var b := bs[0];
      assert LowerAscii(PctUpper(b)) == PctLower(b) by {
        assert LowerChar(HexUpper(b / 16)) == HexLower(b / 16);
        assert LowerChar(HexUpper(b % 16)) == HexLower(b % 16);
      }
    }
  }

  /** A first character other than `%` can never start a match. */
  lemma ReplaceSkipsLiteral(c: char, rest: string)
    requires c != '%'
    ensures ReplacePct20([c] + rest) == [c] + ReplacePct20(rest)
  {
    var s := [c] + rest;
    assert s[1..] == rest;
    if |s| >= 3 {
      assert s[..3][0] == c;
    }
  }

  lemma PctLowerIs20(b: Byte)
    ensures PctLower(b) == "%20" <==> b == 0x20
  {
    if PctLower(b) == "%20" {
      assert HexLower(b / 16) == '2' && HexLower(b % 16) == '0';
    }
  }

  /** Escapes of whole bytes are replaced byte by byte: a match never straddles two
      escapes, because every `%` starts one. */
  lemma {:induction false} ReplaceOverEscapes(bs: seq<Byte>, rest: string)
    ensures ReplacePct20(PctLowerAll(bs) + rest) == DialectBytes(bs) + ReplacePct20(rest)
  {
    if bs != [] {
      var tail := PctLowerAll(bs[1..]) + rest;
      assert PctLowerAll(bs) + rest == PctLower(bs[0]) + tail;
      ReplaceOverEscape(bs[0], tail);
      ReplaceOverEscapes(bs[1..], rest);
      assert DialectBytes(bs) == DialectByte(bs[0]) + DialectBytes(bs[1..]);
    } else {
      assert PctLowerAll(bs) + rest == rest;
    }
  }

  /** One lowercase escape is replaced by `+` when it is `%20` and kept otherwise; the
      scan then resumes right after it. */
  lemma ReplaceOverEscape(b: Byte, tail: string)
    ensures ReplacePct20(PctLower(b) + tail) == DialectByte(b) + ReplacePct20(tail)
  {
    var s := PctLower(b) + tail;
    assert s[..3] == PctLower(b);
    assert s[3..] == tail;
    PctLowerIs20(b);
    if b != 0x20 {
      var h1, h2 := HexLower(b / 16), HexLower(b % 16);
      assert s[1..] == [h1] + ([h2] + tail);
      ReplaceSkipsLiteral(h1, [h2] + tail);
      ReplaceSkipsLiteral(h2, tail);
      assert ReplacePct20(s) == ['%'] + ReplacePct20(s[1..]);
    }
  }


  lemma {:induction false} EscapeMarksConcat(a: string, b: string)
    ensures EscapeMarks(a + b) == EscapeMarks(a) + EscapeMarks(b)
  {
    if a != [] {
      assert (a + b)[0] == a[0];
      assert (a + b)[1..] == a[1..] + b;
      EscapeMarksConcat(a[1..], b);
    } else {
      assert a + b == b;
    }
  }

  lemma {:induction false} EscapeMarksLeavesEscapes(bs: seq<Byte>)
    ensures EscapeMarks(DialectBytes(bs)) == DialectBytes(bs)
  {
    if bs != [] {
      var b := bs[0];
      EscapeMarksLeavesEscapes(bs[1..]);
      EscapeMarksConcat(DialectByte(b), DialectBytes(bs[1..]));
      var d := DialectByte(b);
      if b == 0x20 {
        assert EscapeMarks(d) == "+" + EscapeMarks([]);
      } else {
        var h1, h2 := HexLower(b / 16), HexLower(b % 16);
        assert d == ['%'] + ([h1] + [h2]);
        assert EscapeMarks(d) == ['%'] + EscapeMarks([h1] + [h2]);
        assert EscapeMarks([h1] + [h2]) == [h1] + EscapeMarks([h2]);
      }
    }
  }

  /** What the first three steps make of one character. */
  function StagedChar(c: char): string
  {
    if UriUnescaped(c) then [LowerChar(c)] else DialectBytes(Utf8(c))
  }

  lemma {:induction false} StagedSplits(c: char, t: string)
    ensures ReplacePct20(LowerAscii(EncodeURIComponent([c] + t)))
         == StagedChar(c) + ReplacePct20(LowerAscii(EncodeURIComponent(t)))
  {
    var s := [c] + t;
    assert s[0] == c && s[1..] == t;
    var rest := LowerAscii(EncodeURIComponent(t));
    LowerAsciiConcat(EncodeUriChar(c), EncodeURIComponent(t));
    if UriUnescaped(c) {
      assert LowerAscii([c]) == [LowerChar(c)];
      ReplaceSkipsLiteral(LowerChar(c), rest);
    } else {
      LowerPctUpperAll(Utf8(c));
      ReplaceOverEscapes(Utf8(c), rest);
    }
  }

  lemma ToBase16TwoDigits(n: nat)
    requires 16 <= n < 256
    ensures ToBase16(n) == [HexLower(n / 16), HexLower(n % 16)]
  {
  }

  lemma EscapeStagedChar(c: char)
    ensures EscapeMarks(StagedChar(c)) == DialectChar(c)
  {
    if UriUnescaped(c) {
      assert EscapeMarks([LowerChar(c)]) == (if IsMark(LowerChar(c)) then "%" + ToBase16(LowerChar(c) as int) else [LowerChar(c)]) + EscapeMarks([]);
      if IsMark(c) {
        ToBase16TwoDigits(c as int);
        assert DialectBytes(Utf8(c)) == DialectByte(c as int) + DialectBytes([]);
      }
    } else {
      EscapeMarksLeavesEscapes(Utf8(c));
    }
  }

  /** The four-step pipeline of the callback check produces, character by character,
      exactly the dialect of `DialectEncode`. */
  lemma {:induction false} GatewayEncodeIsDialect(s: string)
    ensures GatewayEncode(s) == DialectEncode(s)
  {
    if s != [] {
      var c, t := s[0], s[1..];
      assert s == [c] + t;
      StagedSplits(c, t);
      EscapeMarksConcat(StagedChar(c), ReplacePct20(LowerAscii(EncodeURIComponent(t))));
      EscapeStagedChar(c);
      GatewayEncodeIsDialect(t);
    }
  }

  // ---------------------------------------------------------------------------
  // Properties of the dialect

  /** Every `%` starts a lowercase escape of a byte other than the space. */
  ghost predicate WellEscaped(r: string)
  {
    forall i :: 0 <= i < |r| && r[i] == '%' ==>
      i + 2 < |r| && IsHexLower(r[i + 1]) && IsHexLower(r[i + 2]) && !(r[i + 1] == '2' && r[i + 2] == '0')
  }

  /** The only literal characters are lowercase letters, digits, `-._~`, `%` and `+`. */
  ghost predicate DialectAlphabet(r: string)
  {
    forall i :: 0 <= i < |r| ==> AlphabetChar(r[i])
  }

  predicate AlphabetChar(c: char)
  {
    IsAsciiLower(c) || IsAsciiDigit(c) || c in "-._~%+"
  }

  lemma AlphabetConcat(a: string, b: string)
    requires DialectAlphabet(a) && DialectAlphabet(b)
    ensures DialectAlphabet(a + b)
  {
    forall i | 0 <= i < |a + b| ensures AlphabetChar((a + b)[i]) {
      if i < |a| {
        assert (a + b)[i] == a[i];
      } else {
        assert (a + b)[i] == b[i - |a|];
      }
    }
  }

  lemma WellEscapedConcat(a: string, b: string)
    requires WellEscaped(a) && WellEscaped(b)
    ensures WellEscaped(a + b)
  {
    var s := a + b;
    forall i | 0 <= i < |s| && s[i] == '%'
      ensures i + 2 < |s| && IsHexLower(s[i + 1]) && IsHexLower(s[i + 2]) && !(s[i + 1] == '2' && s[i + 2] == '0')
    {
      if i < |a| {
        assert a[i] == '%';
        assert s[i + 1] == a[i + 1] && s[i + 2] == a[i + 2];
      } else {
        assert b[i - |a|] == '%';
        assert s[i + 1] == b[i - |a| + 1] && s[i + 2] == b[i - |a| + 2];
      }
    }
  }

  lemma {:induction false} DialectBytesShape(bs: seq<Byte>)
    ensures WellEscaped(DialectBytes(bs)) && DialectAlphabet(DialectBytes(bs))
  {
    if bs != [] {
      var b := bs[0];
      DialectBytesShape(bs[1..]);
      PctLowerIs20(b);
      var d := DialectByte(b);
      assert WellEscaped(d);
      assert DialectAlphabet(d);
      WellEscapedConcat(d, DialectBytes(bs[1..]));
      AlphabetConcat(d, DialectBytes(bs[1..]));
    }
  }

  lemma DialectCharShape(c: char)
    ensures WellEscaped(DialectChar(c)) && DialectAlphabet(DialectChar(c))
  {
    if !Unreserved(c) {
      DialectBytesShape(Utf8(c));
    }
  }

  lemma {:induction false} DialectEncodeShape(s: string)
    ensures WellEscaped(DialectEncode(s)) && DialectAlphabet(DialectEncode(s))
  {
    if s != [] {
      DialectCharShape(s[0]);
      DialectEncodeShape(s[1..]);
      WellEscapedConcat(DialectChar(s[0]), DialectEncode(s[1..]));
      AlphabetConcat(DialectChar(s[0]), DialectEncode(s[1..]));
    }
  }

  /** The encoded string has no uppercase letter and no space, every `%` starts an
      escape in lowercase hexadecimal that is never `%20`, and the only literal
      characters besides `%` and `+` are the unreserved ones. */
  lemma GatewayEncodeShape(s: string)
    ensures var r := GatewayEncode(s);
      && (forall i :: 0 <= i < |r| ==> !IsAsciiUpper(r[i]) && r[i] != ' ')
      && (forall i :: 0 <= i < |r| ==> Unreserved(r[i]) || r[i] == '%' || r[i] == '+')
      && (forall i :: 0 <= i < |r| && r[i] == '%' ==>
            i + 2 < |r| && IsHexLower(r[i + 1]) && IsHexLower(r[i + 2])
            && !(r[i + 1] == '2' && r[i + 2] == '0'))
  {
    GatewayEncodeIsDialect(s);
    DialectEncodeShape(s);
    var r := GatewayEncode(s);
    forall i | 0 <= i < |r|
      ensures !IsAsciiUpper(r[i]) && r[i] != ' ' && (Unreserved(r[i]) || r[i] == '%' || r[i] == '+')
    {
      AlphabetCharKinds(r[i]);
    }
  }

  lemma AlphabetCharKinds(c: char)
    requires AlphabetChar(c)
    ensures !IsAsciiUpper(c) && c != ' ' && (Unreserved(c) || c == '%' || c == '+')
  {
  }

  lemma GatewayEncodeOne(c: char)
    ensures GatewayEncode([c]) == DialectChar(c)
  {
    GatewayEncodeIsDialect([c]);
    assert DialectEncode([c]) == DialectChar(c) + DialectEncode([]);
  }

  /** A space becomes `+`. */
  lemma SpaceIsPlus()
    ensures GatewayEncode(" ") == "+"
  {
    GatewayEncodeOne(' ');
    assert DialectBytes([0x20]) == "+" + DialectBytes([]);
  }

  /** Each of `!'()*` becomes `%` and its code in two lowercase hexadecimal digits. */
  lemma MarkEscaped(c: char)
    requires IsMark(c)
    ensures GatewayEncode([c]) == PctLower(c as int)
  {
    assert c == '!' || c == '\'' || c == '(' || c == ')' || c == '*';
    assert !Unreserved(c) && c as int < 0x80 && c as int != 0x20;
    GatewayEncodeOne(c);
    assert DialectChar(c) == DialectBytes([c as int]);
    assert DialectBytes([c as int]) == DialectByte(c as int) + DialectBytes([]);
  }

  /** `!'()*` become `%21 %27 %28 %29 %2a`. */
  lemma MarksEscaped()
    ensures GatewayEncode("!") == "%21"
    ensures GatewayEncode("'") == "%27"
    ensures GatewayEncode("(") == "%28"
    ensures GatewayEncode(")") == "%29"
    ensures GatewayEncode("*") == "%2a"
  {
    MarkEscapedAs('!', '2', '1');
    MarkEscapedAs('\'', '2', '7');
    MarkEscapedAs('(', '2', '8');
    MarkEscapedAs(')', '2', '9');
    MarkEscapedAs('*', '2', 'a');
  }

  lemma MarkEscapedAs(c: char, hi: char, lo: char)
    requires IsMark(c)
    requires hi == HexLower(c as int / 16) && lo == HexLower(c as int % 16)
    ensures GatewayEncode([c]) == ['%', hi, lo]
  {
    MarkEscaped(c);
  }

  /** Two ASCII letters that differ only in case are written the same way. */
  lemma DialectCharCaseBlind(a: char, b: char)
    requires LowerChar(a) == LowerChar(b)
    ensures DialectChar(a) == DialectChar(b)
  {
    if a != b {
      assert IsAsciiLetter(a) && IsAsciiLetter(b);
    }
  }

  /** Two strings that differ only in the case of ASCII letters produce the same
      encoded string, so the signature cannot tell them apart. */
  lemma GatewayEncodeCaseBlind(s: string, t: string)
    requires LowerAscii(s) == LowerAscii(t)
    ensures GatewayEncode(s) == GatewayEncode(t)
  {
    GatewayEncodeIsDialect(s);
    GatewayEncodeIsDialect(t);
    DialectEncodeCaseBlind(s, t);
  }

  lemma {:induction false} DialectEncodeCaseBlind(s: string, t: string)
    requires LowerAscii(s) == LowerAscii(t)
    ensures DialectEncode(s) == DialectEncode(t)
  {
    if s != [] {
      assert LowerAscii(s)[0] == LowerChar(s[0]) && LowerAscii(t)[0] == LowerChar(t[0]);
      DialectCharCaseBlind(s[0], t[0]);
      assert LowerAscii(s[1..]) == LowerAscii(s)[1..];
      assert LowerAscii(t[1..]) == LowerAscii(t)[1..];
      DialectEncodeCaseBlind(s[1..], t[1..]);
    }
  }

  // ---------------------------------------------------------------------------
  // Decoding: the inverse that `URLSearchParams` applies to a query value

  /** The UTF-8 encoding of a whole string. */
  function Utf8String(s: string): seq<Byte>
  {
    if s == [] then [] else Utf8(s[0]) + Utf8String(s[1..])
  }

  /** The value of a hexadecimal digit of either case. */
  function HexValue(c: char): (r: Option<int>)
    ensures r.Some? ==> 0 <= r.value < 16
  {
    if IsAsciiDigit(c) then Some(c as int - '0' as int)
    else if 'A' <= c <= 'F' then Some(c as int - 'A' as int + 10)
    else if 'a' <= c <= 'f' then Some(c as int - 'a' as int + 10)
    else None
  }

  /** Percent-decoding to octets (section 2.1 of RFC 3986): `%XX` is the octet XX and
      an ASCII character is its own octet; a bad escape or a non-ASCII character fails. */
  function PercentDecode(s: string): Option<seq<Byte>>
    decreases |s|
  {
    if s == [] then Some([])
    else if s[0] == '%' then
      if |s| < 3 || HexValue(s[1]).None? || HexValue(s[2]).None? then None
      else
        var rest := PercentDecode(s[3..]);
        if rest.None? then None else Some([HexValue(s[1]).value * 16 + HexValue(s[2]).value] + rest.value)
    else if (s[0] as int) < 0x80 then
      var rest := PercentDecode(s[1..]);
      if rest.None? then None else Some([s[0] as int] + rest.value)
    else None
  }

  lemma HexUpperValue(d: int)
    requires 0 <= d < 16
    ensures HexValue(HexUpper(d)) == Some(d)
  {
  }

  lemma {:induction false} DecodePctUpperAll(bs: seq<Byte>, rest: string)
    ensures PercentDecode(PctUpperAll(bs) + rest)
         == if PercentDecode(rest).None? then None else Some(bs + PercentDecode(rest).value)
  {
    if bs != [] {
      var tail := PctUpperAll(bs[1..]) + rest;
      assert PctUpperAll(bs) + rest == PctUpper(bs[0]) + tail;
      DecodeEscape(bs[0], tail);
      DecodePctUpperAll(bs[1..], rest);
      var d := PercentDecode(rest);
      if d.Some? {
        assert PercentDecode(tail) == Some(bs[1..] + d.value);
        assert [bs[0]] + (bs[1..] + d.value) == bs + d.value;
      } else {
        assert PercentDecode(tail).None?;
      }
    } else {
      assert PctUpperAll(bs) + rest == rest;
      if PercentDecode(rest).Some? {
        assert bs + PercentDecode(rest).value == PercentDecode(rest).value;
      }
    }
  }

  /** One `%XX` escape decodes to its octet in front of whatever follows. */
  lemma DecodeEscape(b: Byte, tail: string)
    ensures PercentDecode(PctUpper(b) + tail)
         == if PercentDecode(tail).None? then None else Some([b] + PercentDecode(tail).value)
  {
    HexUpperValue(b / 16);
    HexUpperValue(b % 16);
    var s := PctUpper(b) + tail;
    assert s[0] == '%' && s[1] == HexUpper(b / 16) && s[2] == HexUpper(b % 16);
    assert s[3..] == tail;
  }

  /** Percent-decoding undoes `encodeURIComponent`: it yields exactly the UTF-8 octets
      of the original string. */
  lemma {:induction false} DecodeEncodeURIComponent(s: string)
    ensures PercentDecode(EncodeURIComponent(s)) == Some(Utf8String(s))
  {
    if s != [] {
      var c := s[0];
      var rest := EncodeURIComponent(s[1..]);
      DecodeEncodeURIComponent(s[1..]);
      if UriUnescaped(c) {
        var t := [c] + rest;
        assert t[1..] == rest;
      } else {
        DecodePctUpperAll(Utf8(c), rest);
      }
    }
  }

  /** `encodeURIComponent` writes only unescaped characters, `%` and uppercase hex
      digits, so its output never holds a query separator (`&`, `=`), a fragment mark
      (`#`), a space or a `+`. */
  lemma {:induction false} EncodeURIComponentAlphabet(s: string)
    ensures forall i :: 0 <= i < |EncodeURIComponent(s)| ==> ComponentChar(EncodeURIComponent(s)[i])
  {
    if s != [] {
      EncodeURIComponentAlphabet(s[1..]);
      var head := EncodeUriChar(s[0]);
      if !UriUnescaped(s[0]) {
        PctUpperAllAlphabet(Utf8(s[0]));
      }
      var r := EncodeURIComponent(s);
      var rest := EncodeURIComponent(s[1..]);
      assert r == head + rest;
      forall i | 0 <= i < |r| ensures ComponentChar(r[i]) {
        if i >= |head| {
          assert r[i] == rest[i - |head|];
        }
      }
    }
  }

  predicate ComponentChar(c: char)
  {
    UriUnescaped(c) || c == '%' || 'A' <= c <= 'F'
  }

  lemma {:induction false} PctUpperAllAlphabet(bs: seq<Byte>)
    ensures forall i :: 0 <= i < |PctUpperAll(bs)| ==> ComponentChar(PctUpperAll(bs)[i])
  {
    if bs != [] {
      PctUpperAllAlphabet(bs[1..]);
      var r := PctUpperAll(bs);
      var rest := PctUpperAll(bs[1..]);
      forall i | 0 <= i < |r| ensures ComponentChar(r[i]) {
        if i >= 3 {
          assert r[i] == rest[i - 3];
        }
      }
    }
  }
}
