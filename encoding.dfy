/** Percent-decoding of command-line values (`url_decode`): `%HH` escapes
    become single bytes as in section 2.1 of RFC 3986, every other byte is
    copied, `+` stays `+`, and the bytes must then form UTF-8. */
module Encoding {
  import opened Wrappers
  import opened Text
  import opened Utf8

  const PERCENT: byte := 0x25
  const PLUS: byte := 0x2B

  /** The value of an ASCII hexadecimal digit of either case. */
  function HexDigit(b: byte): (r: Option<nat>)
    ensures r.Some? ==> r.value < 16
    ensures r.Some? <==> (0x30 <= b <= 0x39 || 0x41 <= b <= 0x46 || 0x61 <= b <= 0x66)
  {
    if 0x30 <= b <= 0x39 then Some(b - 0x30)
    else if 0x41 <= b <= 0x46 then Some(b - 0x41 + 10)
    else if 0x61 <= b <= 0x66 then Some(b - 0x61 + 10)
    else None
  }

  /** `u8::from_str_radix(text, 16)` on the two bytes after a `%`. A leading
      `+` is accepted as a sign, so `+A` reads as 10; `-` is no sign for an
      unsigned type and so is an invalid digit. */
  function ParseHexByte(hi: byte, lo: byte): (r: Option<byte>)
    ensures r.Some? && hi != PLUS ==>
              HexDigit(hi).Some? && HexDigit(lo).Some?
              && r.value == HexDigit(hi).value * 16 + HexDigit(lo).value
    ensures r.Some? && hi == PLUS ==> HexDigit(lo).Some? && r.value == HexDigit(lo).value
    ensures r.None? <==> HexDigit(lo).None? || (hi != PLUS && HexDigit(hi).None?)
  {
    if hi == PLUS then
      match HexDigit(lo)
      case Some(v) => Some(v)
      case None => None
    else
      match (HexDigit(hi), HexDigit(lo))
      case (Some(h), Some(l)) => Some(h * 16 + l)
      case _ => None
  }

  datatype DecodeError =
    | Incomplete                // `%` with fewer than two bytes after it
    | InvalidPercent            // the two bytes after `%` are not UTF-8
    | InvalidHex(hex: string)   // they are, but not a hexadecimal byte
    | InvalidUtf8(e: Utf8Error) // the decoded bytes are not UTF-8

  /** The error text `url_decode` returns for the original input. */
  function Message(e: DecodeError, input: string): string {
    match e
    case Incomplete => "Incomplete percent-encoding at end of: " + input
    case InvalidPercent => "Invalid percent-encoding in: " + input
    case InvalidHex(h) => "Invalid hex '" + h + "' in percent-encoding: " + input
    case InvalidUtf8(u) => "Invalid UTF-8 after percent-decoding: " + ErrorMessage(u)
  }

  /** The byte an escape `%hi lo` stands for. */
  function DecodeEscape(hi: byte, lo: byte): (r: Result<byte, DecodeError>)
    ensures r.Ok? <==> Decode([hi, lo]).Ok? && ParseHexByte(hi, lo).Some?
    ensures r.Ok? ==> r.value == ParseHexByte(hi, lo).value
  {
    match Decode([hi, lo])
    case Err(_) => Err(InvalidPercent)
    case Ok(hexStr) =>
      match ParseHexByte(hi, lo)
      case Some(v) => Ok(v)
      case None => Err(InvalidHex(hexStr))
  }

  /** `Ok(p + x)` for `Ok(x)`, errors unchanged. */
  function Prepend(p: seq<byte>, r: Result<seq<byte>, DecodeError>): Result<seq<byte>, DecodeError> {
    match r
    case Ok(x) => Ok(p + x)
    case Err(e) => Err(e)
  }

  lemma PrependAppend(a: seq<byte>, b: seq<byte>, r: Result<seq<byte>, DecodeError>)
    ensures Prepend(a, Prepend(b, r)) == Prepend(a + b, r)
  {
    if r.Ok? {
      assert a + (b + r.value) == (a + b) + r.value;
    }
  }

  /** The byte-level decoding, read from the front: the first bad escape
      decides the error. */
  function PercentDecode(bs: seq<byte>): Result<seq<byte>, DecodeError>
    decreases |bs|
  {
    if bs == [] then Ok([])
    else if bs[0] != PERCENT then Prepend([bs[0]], PercentDecode(bs[1..]))
    else if |bs| < 3 then Err(Incomplete)
    else
      match DecodeEscape(bs[1], bs[2])
      case Err(e) => Err(e)
      case Ok(v) => Prepend([v], PercentDecode(bs[3..]))
  }

  /** What `url_decode(input)` returns. */
  function Decoded(input: string): Result<string, string> {
    match PercentDecode(Encode(input))
    case Err(e) => Err(Message(e, input))
    case Ok(bs) =>
      match Decode(bs)
      case Ok(s) => Ok(s)
      case Err(u) => Err(Message(InvalidUtf8(u), input))
  }

  /** `url_decode`: one pass over the input bytes, pushing decoded bytes. */
  method UrlDecode(input: string) returns (r: Result<string, string>)
    ensures r == Decoded(input)
  {
    var src := Encode(input);
    var bytes: seq<byte> := [];
    var i := 0;
    assert src[i..] == src;
    assert Prepend(bytes, PercentDecode(src)) == PercentDecode(src) by {
      if PercentDecode(src).Ok? {
        assert bytes + PercentDecode(src).value == PercentDecode(src).value;
      }
    }
    while i < |src|
      invariant 0 <= i <= |src|
      invariant PercentDecode(src) == Prepend(bytes, PercentDecode(src[i..]))
    {
      var b := src[i];
      assert src[i..][1..] == src[i + 1..];
      i := i + 1;
      if b == PERCENT {
        if i >= |src| {
          return Err(Message(Incomplete, input));
        }
        var hi := src[i];
        i := i + 1;
        if i >= |src| {
          return Err(Message(Incomplete, input));
        }
        var lo := src[i];
        i := i + 1;
        assert src[i - 3..][3..] == src[i..];
        var hexStr := Decode([hi, lo]);
        if hexStr.Err? {
          return Err(Message(InvalidPercent, input));
        }
        var decoded := ParseHexByte(hi, lo);
        if decoded.None? {
          return Err(Message(InvalidHex(hexStr.value), input));
        }
        PrependAppend(bytes, [decoded.value], PercentDecode(src[i..]));
        bytes := bytes + [decoded.value];
      } else {
        PrependAppend(bytes, [b], PercentDecode(src[i..]));
        bytes := bytes + [b];
      }
    }
    assert src[i..] == [];
    assert PercentDecode(src) == Ok(bytes + []);
    assert bytes + [] == bytes;
    var text := Decode(bytes);
    if text.Err? {
      return Err(Message(InvalidUtf8(text.error), input));
    }
    return Ok(text.value);
  }

  // ---------------------------------------------------------------------
  // Properties of the byte-level decoding
  // ---------------------------------------------------------------------

  function CountPercent(bs: seq<byte>): nat {
    if bs == [] then 0 else (if bs[0] == PERCENT then 1 else 0) + CountPercent(bs[1..])
  }

  /** Bytes without `%` are copied unchanged. */
  lemma {:induction false} NoPercentIsIdentity(bs: seq<byte>)
    requires PERCENT !in bs
    ensures PercentDecode(bs) == Ok(bs)
  {
    if bs != [] {
      NoPercentIsIdentity(bs[1..]);
      assert [bs[0]] + bs[1..] == bs;
    }
  }

  /** An escape of two hexadecimal digits becomes the one byte they spell. */
  lemma EscapeDecodes(hi: byte, lo: byte, rest: seq<byte>)
    requires HexDigit(hi).Some? && HexDigit(lo).Some?
    ensures PercentDecode([PERCENT, hi, lo] + rest)
            == Prepend([HexDigit(hi).value * 16 + HexDigit(lo).value], PercentDecode(rest))
  {
    var bs := [PERCENT, hi, lo] + rest;
    assert bs[3..] == rest;
    DecodeAsciiBytes([hi, lo]);
  }

  /** `%+A` decodes to the byte 10. */
  lemma PlusSignEscape()
    ensures PercentDecode([PERCENT, PLUS, 0x41]) == Ok([10])
  {
    var bs: seq<byte> := [PERCENT, PLUS, 0x41];
    assert bs[3..] == [];
    DecodeAsciiBytes([PLUS, 0x41]);
    assert ParseHexByte(PLUS, 0x41) == Some(10);
    assert DecodeEscape(PLUS, 0x41) == Ok(10);
    assert [10] + [] == [10];
  }

  /** A successful decoding is `2 * #escapes` bytes shorter than its input. */
  lemma {:induction false} DecodedLength(bs: seq<byte>)
    requires PercentDecode(bs).Ok?
    ensures |PercentDecode(bs).value| == |bs| - 2 * CountPercent(bs)
    decreases |bs|
  {
    if bs != [] {
      if bs[0] != PERCENT {
        DecodedLength(bs[1..]);
      } else {
        assert bs[1..][1..][1..] == bs[3..];
        DecodedLength(bs[3..]);
        assert CountPercent(bs[1..]) == CountPercent(bs[3..]) by {
          CountPercentSkip(bs[1..], bs[1], bs[2]);
        }
      }
    }
  }

  lemma CountPercentSkip(bs: seq<byte>, hi: byte, lo: byte)
    requires |bs| >= 2 && bs[0] == hi && bs[1] == lo
    ensures CountPercent(bs) == (if hi == PERCENT then 1 else 0)
                                + (if lo == PERCENT then 1 else 0) + CountPercent(bs[2..])
  {
    assert bs[1..][1..] == bs[2..];
  }

  /** A `%` in the last two positions, after an error-free prefix, is an
      incomplete escape. */
  lemma {:induction false} TrailingPercentIncomplete(p: seq<byte>, tail: seq<byte>)
    requires PERCENT !in p
    requires |tail| < 2
    ensures PercentDecode(p + [PERCENT] + tail) == Err(Incomplete)
    decreases |p|
  {
    if p != [] {
      assert (p + [PERCENT] + tail)[1..] == p[1..] + [PERCENT] + tail;
      TrailingPercentIncomplete(p[1..], tail);
    }
  }

  /** An escape whose two bytes are ASCII but no hexadecimal byte is rejected,
      naming the two characters. */
  lemma {:induction false} NonHexEscapeRejected(p: seq<byte>, hi: byte, lo: byte, rest: seq<byte>)
    requires PERCENT !in p
    requires hi < 0x80 && lo < 0x80 && ParseHexByte(hi, lo).None?
    ensures PercentDecode(p + [PERCENT, hi, lo] + rest)
            == Err(InvalidHex([hi as char, lo as char]))
    decreases |p|
  {
    if p != [] {
      assert (p + [PERCENT, hi, lo] + rest)[1..] == p[1..] + [PERCENT, hi, lo] + rest;
      NonHexEscapeRejected(p[1..], hi, lo, rest);
    } else {
      var bs := [PERCENT, hi, lo] + rest;
      assert bs[1] == hi && bs[2] == lo;
      assert DecodeFirst([hi, lo]) == Scalar(hi as char, 1);
      assert [hi, lo][1..] == [lo];
      assert DecodeFirst([lo]) == Scalar(lo as char, 1);
      assert [lo][1..] == [];
      assert Decode([]) == Ok([]);
      assert [lo as char] + [] == [lo as char];
      assert Decode([lo]) == Ok([lo as char]);
      assert Decode([hi, lo]) == Ok([hi as char] + [lo as char]);
      assert [hi as char] + [lo as char] == [hi as char, lo as char];
      assert DecodeEscape(hi, lo) == Err(InvalidHex([hi as char, lo as char]));
      assert bs[0] == PERCENT && |bs| >= 3;
    }
  }

  // ---------------------------------------------------------------------
  // Properties of url_decode
  // ---------------------------------------------------------------------

  /** A string without `%` decodes to itself; in particular `+` is never a space. */
  lemma NoPercentDecodesToItself(s: string)
    requires '%' !in s
    ensures Decoded(s) == Ok(s)
  {
    AsciiInEncode(s, PERCENT);
    NoPercentIsIdentity(Encode(s));
    DecodeEncode(s);
  }

  /** Bytes decoded from escapes that are not UTF-8 are rejected with the
      position reported by the UTF-8 check. */
  lemma InvalidUtf8Rejected(input: string)
    requires PercentDecode(Encode(input)).Ok?
    requires Decode(PercentDecode(Encode(input)).value).Err?
    ensures Decoded(input)
            == Err("Invalid UTF-8 after percent-decoding: "
                   + ErrorMessage(Decode(PercentDecode(Encode(input)).value).error))
  {
  }

  /** A successful decoding re-encodes to exactly the decoded bytes. */
  lemma DecodedBytes(input: string)
    requires Decoded(input).Ok?
    ensures PercentDecode(Encode(input)) == Ok(Encode(Decoded(input).value))
  {
    EncodeDecode(PercentDecode(Encode(input)).value);
  }

  // ---------------------------------------------------------------------
  // The encoder the values come from
  // ---------------------------------------------------------------------

  /** The bytes `urllib.parse.quote(text, safe="")` leaves alone: ASCII
      letters, digits and `-._~`. */
  predicate Unreserved(b: byte) {
    (0x30 <= b <= 0x39) || (0x41 <= b <= 0x5A) || (0x61 <= b <= 0x7A)
    || b == 0x2D || b == 0x2E || b == 0x5F || b == 0x7E
  }

  function HexUpper(d: nat): (c: char)
    requires d < 16
    ensures c as int < 0x80 && HexDigit(c as int) == Some(d)
  {
    if d < 10 then ('0' as int + d) as char else ('A' as int + d - 10) as char
  }

  function QuoteBytes(bs: seq<byte>): (s: string)
    ensures IsAscii(s)
  {
    if bs == [] then ""
    else
      (if Unreserved(bs[0]) then [bs[0] as char]
       else ['%', HexUpper(bs[0] / 16), HexUpper(bs[0] % 16)])
      + QuoteBytes(bs[1..])
  }

  /** Percent-encoding of a string's UTF-8 bytes, uppercase hexadecimal. */
  function Quote(s: string): string {
    QuoteBytes(Encode(s))
  }

  function AsciiBytes(s: string): (bs: seq<byte>)
    requires IsAscii(s)
    ensures |bs| == |s|
  {
    seq(|s|, i requires 0 <= i < |s| => s[i] as int)
  }

  lemma AsciiBytesAppend(x: string, y: string)
    requires IsAscii(x) && IsAscii(y)
    ensures IsAscii(x + y) && AsciiBytes(x + y) == AsciiBytes(x) + AsciiBytes(y)
  {
    assert forall i :: 0 <= i < |x + y| ==> (x + y)[i] == if i < |x| then x[i] else y[i - |x|];
  }

  /** The escape `%XY` of a byte decodes back to it. */
  lemma EscapedByteDecodes(b: byte, rest: seq<byte>, out: seq<byte>)
    requires PercentDecode(rest) == Ok(out)
    ensures var e := ['%', HexUpper(b / 16), HexUpper(b % 16)];
      IsAscii(e) && PercentDecode(AsciiBytes(e) + rest) == Ok([b] + out)
  {
    var e := ['%', HexUpper(b / 16), HexUpper(b % 16)];
    assert AsciiBytes(e) == [PERCENT, HexUpper(b / 16) as int, HexUpper(b % 16) as int];
    EscapeDecodes(HexUpper(b / 16) as int, HexUpper(b % 16) as int, rest);
  }

  /** An unreserved byte passes through the decoder. */
  lemma PlainByteDecodes(b: byte, rest: seq<byte>, out: seq<byte>)
    requires Unreserved(b) && PercentDecode(rest) == Ok(out)
    ensures IsAscii([b as char]) && PercentDecode(AsciiBytes([b as char]) + rest) == Ok([b] + out)
  {
    assert AsciiBytes([b as char]) == [b];
    assert ([b] + rest)[1..] == rest;
  }

  lemma {:induction false} DecodeQuoteBytes(bs: seq<byte>)
    ensures PercentDecode(AsciiBytes(QuoteBytes(bs))) == Ok(bs)
  {
    if bs != [] {
      var tail := QuoteBytes(bs[1..]);
      DecodeQuoteBytes(bs[1..]);
      if Unreserved(bs[0]) {
        PlainByteDecodes(bs[0], AsciiBytes(tail), bs[1..]);
        AsciiBytesAppend([bs[0] as char], tail);
      } else {
        var e := ['%', HexUpper(bs[0] / 16), HexUpper(bs[0] % 16)];
        EscapedByteDecodes(bs[0], AsciiBytes(tail), bs[1..]);
        AsciiBytesAppend(e, tail);
      }
      assert [bs[0]] + bs[1..] == bs;
    }
  }

  /** Decoding what the encoder produced gives back the original string:
      `url_decode` inverts `quote`. */
  lemma DecodeQuote(s: string)
    ensures Decoded(Quote(s)) == Ok(s)
  {
    var q := Quote(s);
    EncodeAscii(q);
    assert Encode(q) == AsciiBytes(q);
    DecodeQuoteBytes(Encode(s));
    DecodeEncode(s);
  }

  /** The escapes of the UTF-8 bytes of two Japanese characters. */
  const JAPANESE_ESCAPED := "%E8%A6%9A%E3%81%88"
  const JAPANESE_BYTES: seq<byte> := [0xE8, 0xA6, 0x9A, 0xE3, 0x81, 0x88]

  const JAPANESE_ESCAPED_BYTES: seq<byte> :=
    [PERCENT, 0x45, 0x38, PERCENT, 0x41, 0x36, PERCENT, 0x39, 0x41,
     PERCENT, 0x45, 0x33, PERCENT, 0x38, 0x31, PERCENT, 0x38, 0x38]

  lemma JapaneseEscapedBytes()
    ensures Encode(JAPANESE_ESCAPED) == JAPANESE_ESCAPED_BYTES
  {
    AsciiEncodeIs(JAPANESE_ESCAPED, JAPANESE_ESCAPED_BYTES);
  }

  lemma AsciiEncodeIs(s: string, bs: seq<byte>)
    requires |s| == |bs| && forall i :: 0 <= i < |s| ==> s[i] as int == bs[i] < 0x80
    ensures Encode(s) == bs
  {
    EncodeAscii(s);
  }

  lemma EscapeStep(hi: byte, lo: byte, v: byte, rest: seq<byte>, out: seq<byte>)
    requires HexDigit(hi).Some? && HexDigit(lo).Some?
    requires v == HexDigit(hi).value * 16 + HexDigit(lo).value
    requires PercentDecode(rest) == Ok(out)
    ensures PercentDecode([PERCENT, hi, lo] + rest) == Ok([v] + out)
  {
    EscapeDecodes(hi, lo, rest);
  }

  lemma JapaneseEscapes()
    ensures PercentDecode(JAPANESE_ESCAPED_BYTES) == Ok(JAPANESE_BYTES)
  {
    var t6: seq<byte> := [];
    var t5 := [PERCENT, 0x38, 0x38] + t6;
    var t4 := [PERCENT, 0x38, 0x31] + t5;
    var t3 := [PERCENT, 0x45, 0x33] + t4;
    var t2 := [PERCENT, 0x39, 0x41] + t3;
    var t1 := [PERCENT, 0x41, 0x36] + t2;
    var t0 := [PERCENT, 0x45, 0x38] + t1;
    assert JAPANESE_ESCAPED_BYTES == t0;
    EscapeChain(t0, t1, t2, t3, t4, t5, t6, []);
    assert [0xE8] + ([0xA6] + ([0x9A] + ([0xE3] + ([0x81] + ([0x88] + []))))) == JAPANESE_BYTES;
  }

  lemma EscapeChain(t0: seq<byte>, t1: seq<byte>, t2: seq<byte>, t3: seq<byte>,
                    t4: seq<byte>, t5: seq<byte>, t6: seq<byte>, o6: seq<byte>)
    requires PercentDecode(t6) == Ok(o6)
    requires t5 == [PERCENT, 0x38, 0x38] + t6 && t4 == [PERCENT, 0x38, 0x31] + t5
    requires t3 == [PERCENT, 0x45, 0x33] + t4 && t2 == [PERCENT, 0x39, 0x41] + t3
    requires t1 == [PERCENT, 0x41, 0x36] + t2 && t0 == [PERCENT, 0x45, 0x38] + t1
    ensures PercentDecode(t0)
            == Ok([0xE8] + ([0xA6] + ([0x9A] + ([0xE3] + ([0x81] + ([0x88] + o6))))))
  {
    EscapeStep(0x38, 0x38, 0x88, t6, o6);
    EscapeStep(0x38, 0x31, 0x81, t5, [0x88] + o6);
    EscapeStep(0x45, 0x33, 0xE3, t4, [0x81] + ([0x88] + o6));
    EscapeStep(0x39, 0x41, 0x9A, t3, [0xE3] + ([0x81] + ([0x88] + o6)));
    EscapeStep(0x41, 0x36, 0xA6, t2, [0x9A] + ([0xE3] + ([0x81] + ([0x88] + o6))));
    EscapeStep(0x45, 0x38, 0xE8, t1, [0xA6] + ([0x9A] + ([0xE3] + ([0x81] + ([0x88] + o6)))));
  }

  lemma JapaneseUtf8()
    ensures Encode("\U{899A}\U{3048}") == JAPANESE_BYTES
  {
    var text := "\U{899A}\U{3048}";
    assert EncodeChar('\U{899A}') == [0xE8, 0xA6, 0x9A];
    assert EncodeChar('\U{3048}') == [0xE3, 0x81, 0x88];
    assert text[1..][1..] == [];
  }

  /** The six escapes decode to the two characters they encode. */
  lemma JapaneseExample()
    ensures Decoded(JAPANESE_ESCAPED) == Ok("\U{899A}\U{3048}")
  {
    JapaneseEscapedBytes();
    JapaneseEscapes();
    JapaneseUtf8();
    DecodeEncode("\U{899A}\U{3048}");
  }
}
