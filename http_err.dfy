/** The error tag that carries an HTTP status code inside an error message:
    `http_error:<code> -=> <message>`. */
module HttpErr {
  import opened Wrappers
  import opened Text

  /** The values an `http::StatusCode` can hold. */
  type StatusCode = c: nat | 100 <= c <= 999 witness 500

  const INTERNAL_SERVER_ERROR: StatusCode := 500

  const TAG: string := "http_error"

  /** The separator between the tagged prefix and the message. */
  const ARROW: string := " -=> "

  function HttpErrTag(): (t: string)
    ensures t == TAG
  {
    "http_error"
  }

  /** `http_err_msg(msg, code)`. */
  function HttpErrMsg(msg: string, code: StatusCode): (s: string)
    ensures StartsWith(s, TAG + ":" + NatToString(code) + ARROW)
    ensures |s| >= |msg| && s[|s| - |msg|..] == msg
  {
    HttpErrTag() + ":" + NatToString(code) + ARROW + msg
  }

  /** `StatusCode::from_str`: exactly three decimal digits, the first not `0`.
      A three-byte text containing a non-ASCII character is rejected as well,
      so reading characters instead of bytes changes nothing. */
  function ParseStatusCode(s: string): (r: Option<StatusCode>)
    ensures r.Some? <==> |s| == 3 && AllDigits(s) && s[0] != '0'
    ensures r.Some? ==> r.value == DecimalValue(s)
  {
    if |s| == 3 && AllDigits(s) && s[0] != '0' then
      ThreeDigitValue(s);
      Some(DecimalValue(s))
    else None
  }

  lemma ThreeDigitValue(s: string)
    requires |s| == 3 && AllDigits(s) && s[0] != '0'
    ensures 100 <= DecimalValue(s) <= 999
  {
    assert s[..2][..1] == s[..1];
    assert s[..1][..0] == [];
    var d0, d1, d2 := s[0] as int - '0' as int, s[1] as int - '0' as int, s[2] as int - '0' as int;
    assert DecimalValue(s[..1]) == d0;
    assert DecimalValue(s[..2]) == d0 * 10 + d1;
    assert DecimalValue(s) == d0 * 100 + d1 * 10 + d2;
  }

  /** `parse_http_err_code(msg)`. */
  function ParseHttpErrCode(msg: string): (r: Option<StatusCode>)
    ensures !Contains(msg, TAG) ==> r.None?
  {
    if !Contains(msg, HttpErrTag()) then None
    else
      var prefix := BeforeFirst(msg, ARROW);
      var pieces := Split(prefix, ':');
      if |pieces| < 2 then None
      else Some(ParseStatusCode(pieces[1]).GetOr(INTERNAL_SERVER_ERROR))
  }

  // ---------------------------------------------------------------------
  // Properties
  // ---------------------------------------------------------------------

  lemma StatusCodeRoundTrip(code: StatusCode)
    ensures ParseStatusCode(NatToString(code)) == Some(code)
  {
    NatToStringThreeDigits(code);
    DecimalRoundTrip(code);
  }

  lemma NoArrowAtNonSpace(s: string, i: nat)
    requires i < |s| && s[i] != ' '
    ensures !StartsWith(s[i..], ARROW)
  {
    assert ARROW[0] == ' ';
  }

  /** The arrow's first occurrence in a tagged message is right after the code:
      the prefix before it holds no space. */
  lemma ArrowAfterCode(msg: string, code: StatusCode)
    ensures BeforeFirst(HttpErrMsg(msg, code), ARROW) == TAG + ":" + NatToString(code)
  {
    var digits := NatToString(code);
    NatToStringThreeDigits(code);
    var head := TAG + ":" + digits;
    var s := HttpErrMsg(msg, code);
    assert s == head + (ARROW + msg);
    assert |head| == 14;
    assert ' ' !in head by {
      forall i | 0 <= i < |digits| ensures digits[i] != ' ' {
        assert IsDigit(digits[i]);
      }
      assert ' ' !in TAG + ":";
    }
    assert s[14..] == ARROW + msg;
    assert StartsWith(s[14..], ARROW);
    forall i | 0 <= i < 14 ensures !StartsWith(s[i..], ARROW) {
      assert s[i] == head[i];
      NoArrowAtNonSpace(s, i);
    }
    FindFirst(s, ARROW, 14);
    assert s[..14] == head;
  }

  /** Formatting and then parsing recovers the status code, whatever the message. */
  lemma HttpErrRoundTrip(msg: string, code: StatusCode)
    ensures ParseHttpErrCode(HttpErrMsg(msg, code)) == Some(code)
  {
    var s := HttpErrMsg(msg, code);
    var digits := NatToString(code);
    assert StartsWith(s, TAG);
    StartsWithContains(s, TAG);
    ArrowAfterCode(msg, code);
    var prefix := TAG + ":" + digits;
    assert ':' !in digits by {
      forall i | 0 <= i < |digits| ensures digits[i] != ':' {
        assert IsDigit(digits[i]);
      }
    }
    assert ':' !in TAG;
    SplitJoin([TAG, digits], ':');
    assert Join([TAG, digits], [':']) == prefix;
    StatusCodeRoundTrip(code);
  }

  /** A tagged message whose code text is not a status code maps to 500. */
  lemma UnparsableCodeIsInternalError(msg: string)
    requires Contains(msg, TAG)
    requires |Split(BeforeFirst(msg, ARROW), ':')| >= 2
    requires ParseStatusCode(Split(BeforeFirst(msg, ARROW), ':')[1]).None?
    ensures ParseHttpErrCode(msg) == Some(INTERNAL_SERVER_ERROR)
  {
  }

  /** A tagged message with no `:` before the arrow carries no code. */
  lemma NoColonIsNone(msg: string)
    requires ':' !in BeforeFirst(msg, ARROW)
    ensures ParseHttpErrCode(msg).None?
  {
  }

  /** The examples the program's own tests use. */
  lemma BadRequestMessage()
    ensures HttpErrMsg("test", 400) == "http_error:400 -=> test"
  {
    assert NatToString(400) == "400";
  }

  lemma BadRequestParsed()
    ensures ParseHttpErrCode("http_error:400 -=> test") == Some(400)
  {
    BadRequestMessage();
    HttpErrRoundTrip("test", 400);
  }
}
