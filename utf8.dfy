/** UTF-8 as Rust's `String::from_utf8` checks it: the well-formed byte
    sequences of Table 3-7 in section 3.9 of the Unicode Standard, and on
    failure the `Utf8Error` that reports how far the input was valid. */
module Utf8 {
  import opened Wrappers
  import opened Text

  type byte = x: int | 0 <= x < 256

  /** Rust's `Utf8Error`: the length of the longest valid prefix, and the
      length of the invalid sequence after it (None when the input ends in
      the middle of a sequence). */
  datatype Utf8Error = Utf8Error(validUpTo: nat, errorLen: Option<nat>)

  /** The outcome of reading one scalar value at the front of a byte sequence. */
  datatype Step = Scalar(c: char, len: nat) | Invalid(errorLen: Option<nat>)

  predicate IsCont(b: byte) {
    0x80 <= b <= 0xBF
  }

  /** Sequence length announced by a leading byte; 0 for a byte that cannot lead. */
  function Width(b: byte): nat {
    if b < 0x80 then 1
    else if 0xC2 <= b <= 0xDF then 2
    else if 0xE0 <= b <= 0xEF then 3
    else if 0xF0 <= b <= 0xF4 then 4
    else 0
  }

  /** The range of the second byte after a leading byte: narrower than the
      continuation range after E0, ED, F0 and F4, which excludes overlong
      forms, surrogates and values above U+10FFFF. */
  predicate SecondOk(b0: byte, b1: byte) {
    if b0 == 0xE0 then 0xA0 <= b1 <= 0xBF
    else if b0 == 0xED then 0x80 <= b1 <= 0x9F
    else if b0 == 0xF0 then 0x90 <= b1 <= 0xBF
    else if b0 == 0xF4 then 0x80 <= b1 <= 0x8F
    else IsCont(b1)
  }

  /** Reads one scalar value, checking bytes in order as Rust's validator
      does: the error length counts the bytes accepted before the bad one. */
  function DecodeFirst(bs: seq<byte>): (st: Step)
    requires |bs| > 0
    ensures st.Scalar? ==> 1 <= st.len <= |bs| && st.len == Width(bs[0])
    ensures st.Invalid? && st.errorLen.Some? ==> 1 <= st.errorLen.value <= 3
    ensures st.Invalid? && st.errorLen.None? ==> |bs| < 4
  {
    var b0 := bs[0];
    var w := Width(b0);
    if w == 1 then Scalar(b0 as char, 1)
    else if w == 0 then Invalid(Some(1))
    else if |bs| < 2 then Invalid(None)
    else if !SecondOk(b0, bs[1]) then Invalid(Some(1))
    else if w == 2 then Scalar(((b0 as int - 0xC0) * 64 + (bs[1] as int - 0x80)) as char, 2)
    else if |bs| < 3 then Invalid(None)
    else if !IsCont(bs[2]) then Invalid(Some(2))
    else if w == 3 then
      Scalar(((b0 as int - 0xE0) * 4096 + (bs[1] as int - 0x80) * 64
              + (bs[2] as int - 0x80)) as char, 3)
    else if |bs| < 4 then Invalid(None)
    else if !IsCont(bs[3]) then Invalid(Some(3))
    else
      Scalar(((b0 as int - 0xF0) * 262144 + (bs[1] as int - 0x80) * 4096
              + (bs[2] as int - 0x80) * 64 + (bs[3] as int - 0x80)) as char, 4)
  }

  /** `String::from_utf8`. */
  function Decode(bs: seq<byte>): (r: Result<string, Utf8Error>)
    ensures r.Err? ==> r.error.validUpTo < |bs|
    decreases |bs|
  {
    if bs == [] then Ok([])
    else
      match DecodeFirst(bs)
      case Invalid(n) => Err(Utf8Error(0, n))
      case Scalar(c, k) =>
        match Decode(bs[k..])
        case Ok(s) => Ok([c] + s)
        case Err(e) => Err(Utf8Error(e.validUpTo + k, e.errorLen))
  }

  /** The Display text of `Utf8Error`. */
  function ErrorMessage(e: Utf8Error): string {
    match e.errorLen
    case Some(n) =>
      "invalid utf-8 sequence of " + NatToString(n) + " bytes from index "
      + NatToString(e.validUpTo)
    case None => "incomplete utf-8 byte sequence from index " + NatToString(e.validUpTo)
  }

  /** The UTF-8 form of one scalar value. */
  function EncodeChar(c: char): (bs: seq<byte>)
    ensures 1 <= |bs| <= 4
    ensures (c as int < 0x80) <==> |bs| == 1
    ensures |bs| == 1 ==> bs[0] == c as int
    ensures |bs| > 1 ==> forall i :: 0 <= i < |bs| ==> bs[i] >= 0x80
  {
    var cp := c as int;
    if cp < 0x80 then [cp]
    else if cp < 0x800 then [0xC0 + cp / 64, 0x80 + cp % 64]
    else if cp < 0x10000 then [0xE0 + cp / 4096, 0x80 + (cp / 64) % 64, 0x80 + cp % 64]
    else
      [0xF0 + cp / 262144, 0x80 + (cp / 4096) % 64, 0x80 + (cp / 64) % 64, 0x80 + cp % 64]
  }

  /** The UTF-8 bytes of a string (`str::bytes`). */
  function Encode(s: string): (bs: seq<byte>)
    ensures |bs| >= |s|
  {
    if s == [] then [] else EncodeChar(s[0]) + Encode(s[1..])
  }

  // ---------------------------------------------------------------------
  // Decode and Encode are inverse
  // ---------------------------------------------------------------------

  /** The bytes of a two-byte form are accepted and give the value back. */
  lemma SplitTwo(cp: int)
    requires 0x80 <= cp < 0x800
    ensures var b0 := 0xC0 + cp / 64; var b1 := 0x80 + cp % 64;
      0xC2 <= b0 <= 0xDF && 0x80 <= b1 <= 0xBF && (b0 - 0xC0) * 64 + (b1 - 0x80) == cp
  {
  }

  lemma SplitThree(cp: int)
    requires 0x800 <= cp < 0x10000 && !(0xD800 <= cp < 0xE000)
    ensures var b0 := 0xE0 + cp / 4096; var b1 := 0x80 + (cp / 64) % 64; var b2 := 0x80 + cp % 64;
      0xE0 <= b0 <= 0xEF && 0 <= b1 < 256 && SecondOk(b0, b1) && IsCont(b2)
      && (b0 - 0xE0) * 4096 + (b1 - 0x80) * 64 + (b2 - 0x80) == cp
  {
    assert cp / 64 == (cp / 4096) * 64 + (cp / 64) % 64;
    assert cp == (cp / 64) * 64 + cp % 64;
  }

  lemma SplitFour(cp: int)
    requires 0x10000 <= cp < 0x110000
    ensures var b0 := 0xF0 + cp / 262144; var b1 := 0x80 + (cp / 4096) % 64;
      var b2 := 0x80 + (cp / 64) % 64; var b3 := 0x80 + cp % 64;
      0xF0 <= b0 <= 0xF4 && 0 <= b1 < 256 && SecondOk(b0, b1) && IsCont(b2) && IsCont(b3)
      && (b0 - 0xF0) * 262144 + (b1 - 0x80) * 4096 + (b2 - 0x80) * 64 + (b3 - 0x80) == cp
  {
    assert cp / 4096 == (cp / 262144) * 64 + (cp / 4096) % 64;
    assert cp / 64 == (cp / 4096) * 64 + (cp / 64) % 64;
    assert cp == (cp / 64) * 64 + cp % 64;
  }

  lemma DecodeFirstTwo(c: char, rest: seq<byte>)
    requires 0x80 <= c as int < 0x800
    ensures DecodeFirst(EncodeChar(c) + rest) == Scalar(c, 2)
  {
    var cp := c as int;
    SplitTwo(cp);
    var bs := EncodeChar(c) + rest;
    assert bs[0] == 0xC0 + cp / 64 && bs[1] == 0x80 + cp % 64;
  }

  lemma DecodeFirstThree(c: char, rest: seq<byte>)
    requires 0x800 <= c as int < 0x10000
    ensures DecodeFirst(EncodeChar(c) + rest) == Scalar(c, 3)
  {
    var cp := c as int;
    SplitThree(cp);
    var bs := EncodeChar(c) + rest;
    assert bs[0] == 0xE0 + cp / 4096 && bs[1] == 0x80 + (cp / 64) % 64 && bs[2] == 0x80 + cp % 64;
  }

  lemma DecodeFirstFour(c: char, rest: seq<byte>)
    requires 0x10000 <= c as int
    ensures DecodeFirst(EncodeChar(c) + rest) == Scalar(c, 4)
  {
    var cp := c as int;
    SplitFour(cp);
    var bs := EncodeChar(c) + rest;
    assert bs[0] == 0xF0 + cp / 262144 && bs[1] == 0x80 + (cp / 4096) % 64;
    assert bs[2] == 0x80 + (cp / 64) % 64 && bs[3] == 0x80 + cp % 64;
  }

  lemma DecodeFirstEncodeChar(c: char, rest: seq<byte>)
    ensures DecodeFirst(EncodeChar(c) + rest) == Scalar(c, |EncodeChar(c)|)
  {
    var cp := c as int;
    if cp < 0x80 {
    } else if cp < 0x800 {
      DecodeFirstTwo(c, rest);
    } else if cp < 0x10000 {
      DecodeFirstThree(c, rest);
    } else {
      DecodeFirstFour(c, rest);
    }
  }

  /** Decoding the bytes of a string gives the string back. */
  lemma {:induction false} DecodeEncode(s: string)
    ensures Decode(Encode(s)) == Ok(s)
  {
    if s != [] {
      var e := EncodeChar(s[0]);
      DecodeFirstEncodeChar(s[0], Encode(s[1..]));
      assert (e + Encode(s[1..]))[|e|..] == Encode(s[1..]);
      DecodeEncode(s[1..]);
      assert [s[0]] + s[1..] == s;
    }
  }

  lemma EncodeTwo(b0: int, b1: int)
    requires 0xC2 <= b0 <= 0xDF && 0 <= b1 < 64
    ensures var cp := (b0 - 0xC0) * 64 + b1;
      0x80 <= cp < 0x800 && cp / 64 == b0 - 0xC0 && cp % 64 == b1
  {
  }

  lemma EncodeThree(b0: int, b1: int, b2: int)
    requires 0xE0 <= b0 <= 0xEF && 0 <= b1 < 64 && 0 <= b2 < 64
    requires b0 == 0xE0 ==> b1 >= 0x20
    ensures var cp := (b0 - 0xE0) * 4096 + b1 * 64 + b2;
      0x800 <= cp < 0x10000 && cp / 4096 == b0 - 0xE0 && (cp / 64) % 64 == b1 && cp % 64 == b2
  {
    var cp := (b0 - 0xE0) * 4096 + b1 * 64 + b2;
    assert cp / 64 == (b0 - 0xE0) * 64 + b1;
  }

  lemma EncodeFour(b0: int, b1: int, b2: int, b3: int)
    requires 0xF0 <= b0 <= 0xF4 && 0 <= b1 < 64 && 0 <= b2 < 64 && 0 <= b3 < 64
    requires b0 == 0xF0 ==> b1 >= 0x10
    ensures var cp := (b0 - 0xF0) * 262144 + b1 * 4096 + b2 * 64 + b3;
      0x10000 <= cp && cp / 262144 == b0 - 0xF0 && (cp / 4096) % 64 == b1
      && (cp / 64) % 64 == b2 && cp % 64 == b3
  {
    var cp := (b0 - 0xF0) * 262144 + b1 * 4096 + b2 * 64 + b3;
    assert cp / 64 == (b0 - 0xF0) * 4096 + b1 * 64 + b2;
    assert cp / 4096 == (b0 - 0xF0) * 64 + b1;
  }

  lemma EncodeCharOfTwo(bs: seq<byte>)
    requires |bs| >= 2 && DecodeFirst(bs).Scalar? && DecodeFirst(bs).len == 2
    ensures EncodeChar(DecodeFirst(bs).c) == bs[..2]
  {
    EncodeTwo(bs[0], bs[1] - 0x80);
    assert bs[..2] == [bs[0], bs[1]];
  }

  lemma EncodeCharOfThree(bs: seq<byte>)
    requires |bs| >= 3 && DecodeFirst(bs).Scalar? && DecodeFirst(bs).len == 3
    ensures EncodeChar(DecodeFirst(bs).c) == bs[..3]
  {
    EncodeThree(bs[0], bs[1] - 0x80, bs[2] - 0x80);
    assert bs[..3] == [bs[0], bs[1], bs[2]];
  }

  lemma EncodeCharOfFour(bs: seq<byte>)
    requires |bs| >= 4 && DecodeFirst(bs).Scalar? && DecodeFirst(bs).len == 4
    ensures EncodeChar(DecodeFirst(bs).c) == bs[..4]
  {
    EncodeFour(bs[0], bs[1] - 0x80, bs[2] - 0x80, bs[3] - 0x80);
    assert bs[..4] == [bs[0], bs[1], bs[2], bs[3]];
  }

  lemma EncodeCharOfStep(bs: seq<byte>)
    requires |bs| > 0 && DecodeFirst(bs).Scalar?
    ensures EncodeChar(DecodeFirst(bs).c) == bs[..DecodeFirst(bs).len]
    ensures EncodeChar(DecodeFirst(bs).c) + bs[DecodeFirst(bs).len..] == bs
  {
    var st := DecodeFirst(bs);
    assert bs == bs[..st.len] + bs[st.len..];
    if st.len == 2 {
      EncodeCharOfTwo(bs);
    } else if st.len == 3 {
      EncodeCharOfThree(bs);
    } else if st.len == 4 {
      EncodeCharOfFour(bs);
    }
  }

  lemma EncodeCons(c: char, s: string)
    ensures Encode([c] + s) == EncodeChar(c) + Encode(s)
  {
    assert ([c] + s)[1..] == s;
  }

  /** A successful decoding is the first scalar followed by the decoding of
      the rest. */
  lemma DecodeCons(bs: seq<byte>)
    requires bs != [] && Decode(bs).Ok?
    ensures DecodeFirst(bs).Scalar? && Decode(bs[DecodeFirst(bs).len..]).Ok?
    ensures Decode(bs).value == [DecodeFirst(bs).c] + Decode(bs[DecodeFirst(bs).len..]).value
  {
  }

  /** Bytes that decode are exactly the encoding of what they decode to. */
  lemma {:induction false} EncodeDecode(bs: seq<byte>)
    requires Decode(bs).Ok?
    ensures Encode(Decode(bs).value) == bs
    decreases |bs|
  {
    if bs != [] {
      DecodeCons(bs);
      var st := DecodeFirst(bs);
      var tail := bs[st.len..];
      EncodeCharOfStep(bs);
      EncodeDecode(tail);
      EncodeCons(st.c, Decode(tail).value);
    }
  }

  /** On failure, the bytes before `validUpTo` are valid UTF-8. */
  lemma {:induction false} ValidUpToIsValid(bs: seq<byte>)
    requires Decode(bs).Err?
    ensures Decode(bs[..Decode(bs).error.validUpTo]).Ok?
    decreases |bs|
  {
    var st := DecodeFirst(bs);
    if st.Scalar? {
      var k := st.len;
      ValidUpToIsValid(bs[k..]);
      var v := Decode(bs[k..]).error.validUpTo;
      var p := bs[..v + k];
      assert p[..k] == bs[..k];
      DecodeFirstPrefix(bs, v + k);
      assert p[k..] == bs[k..][..v];
    }
  }

  /** Reading the first scalar only looks at the bytes it uses. */
  lemma DecodeFirstPrefix(bs: seq<byte>, n: nat)
    requires |bs| > 0 && DecodeFirst(bs).Scalar? && DecodeFirst(bs).len <= n <= |bs|
    ensures DecodeFirst(bs[..n]) == DecodeFirst(bs)
  {
  }

  // ---------------------------------------------------------------------
  // ASCII
  // ---------------------------------------------------------------------

  /** An ASCII byte value appears in the encoding exactly where its character
      appears in the string: the bytes of longer sequences are all >= 0x80. */
  lemma {:induction false} AsciiInEncode(s: string, b: byte)
    requires b < 0x80
    ensures b in Encode(s) <==> (b as char) in s
  {
    if s != [] {
      AsciiInEncode(s[1..], b);
      var e := EncodeChar(s[0]);
      assert Encode(s) == e + Encode(s[1..]);
      if |e| == 1 {
        assert b in e <==> s[0] == b as char;
      } else {
        assert b !in e;
        assert s[0] != b as char;
      }
      assert s == [s[0]] + s[1..];
    }
  }

  predicate IsAscii(s: string) {
    forall i :: 0 <= i < |s| ==> s[i] as int < 0x80
  }

  /** The bytes of an ASCII string are its character codes. */
  lemma {:induction false} EncodeAscii(s: string)
    requires IsAscii(s)
    ensures |Encode(s)| == |s|
    ensures forall i :: 0 <= i < |s| ==> Encode(s)[i] == s[i] as int
  {
    if s != [] {
      EncodeAscii(s[1..]);
    }
  }

  /** A sequence of bytes below 0x80 is valid UTF-8. */
  lemma {:induction false} DecodeAsciiBytes(bs: seq<byte>)
    requires forall i :: 0 <= i < |bs| ==> bs[i] < 0x80
    ensures Decode(bs).Ok?
  {
    if bs != [] {
      DecodeAsciiBytes(bs[1..]);
    }
  }
}
