/**
 * The response decoder: one raw response line from the engine, such as
 * "200 result=0\n", turned into an immutable status record.
 */
module Status {
  import opened Wrappers
  import opened RubyText

  /** What `ReturnStatus#digit` gives: nil, a one-character string, or a RangeError from `Integer#chr`. */
  datatype DigitView = NoDigit | Char(c: char) | OutOfRange(code: int)

  /**
   * The fields the constructor stores: the chomped command, the raw response
   * line (None when the stream was closed), the first whitespace-separated
   * field, and the `result=` value, which is present only when that field is
   * "200" and the second field has text after its first `=`.
   */
  datatype ReturnStatus = ReturnStatus(
    command: string,
    message: Option<string>,
    returnCode: Option<string>,
    rawResult: Option<string>)
  {
    /** `result` is `@result.to_s`: never nil. */
    function Result(): string {
      rawResult.GetOr("")
    }

    function Digits(): string {
      rawResult.GetOr("")
    }

    function Message(): string {
      message.GetOr("")
    }

    function ToString(): string {
      command + " >> " + Message()
    }

    /** `result.nil? or not (@return_code == '200')`, where `result` is a string and never nil. */
    predicate CommandError() {
      returnCode != Some("200")
    }

    /** `/\(timeout\)/` matched against the raw line; a nil line does not match. */
    predicate Timeout() {
      message.Some? && Contains(message.value, "(timeout)")
    }

    /** nil for the result "0"; otherwise `@result.to_i.chr` (nil.to_i is 0). */
    function Digit(): DigitView {
      if rawResult == Some("0") then NoDigit
      else
        var code := ToI(Result());
        if 0 <= code < 256 then Char(code as char) else OutOfRange(code)
    }
  }

  /**
   * The lines the constructor can decode: on a "200" line with no second
   * field, `str[1].split('=')` calls `split` on nil and Ruby raises NoMethodError.
   */
  predicate Decodable(message: Option<string>) {
    message.None? || (var w := Words(message.value); w == [] || w[0] != "200" || |w| >= 2)
  }

  /** `field.split('=')[1]`: the text between the first and the second `=`, nil when there is none. */
  function ResultValue(field: string): Option<string> {
    var parts := Split(field, '=');
    if |parts| >= 2 then Some(parts[1]) else None
  }

  /** `ReturnStatus.new(command, message)` */
  function Decode(command: string, message: Option<string>): ReturnStatus
    requires Decodable(message)
  {
    match message
    case None => ReturnStatus(Chomp(command), None, None, None)
    case Some(m) =>
      var w := Words(m);
      var code := if w == [] then None else Some(w[0]);
      ReturnStatus(Chomp(command), message, code, if code == Some("200") then ResultValue(w[1]) else None)
  }

  /** The line the engine sends for a successful exchange: code 200 and `result=<value>`, then anything after whitespace. */
  function SuccessLine(value: string, tail: string): string {
    "200" + " " + ("result=" + value) + tail
  }

  // ---------------------------------------------------------------------------
  // properties

  /** A closed stream: no code, empty result and message, a command error, no timeout (the `@messsage` typo leaves the message nil). */
  lemma NilResponse(command: string)
    ensures var r := Decode(command, None);
      && r.returnCode.None?
      && r.Result() == "" && r.Message() == ""
      && r.CommandError() && !r.Timeout()
      && r.ToString() == Chomp(command) + " >> "
  {
  }

  /** `command_error?` holds exactly when the line is missing or its first field is not "200". */
  lemma CommandErrorIff(command: string, message: Option<string>)
    requires Decodable(message)
    ensures Decode(command, message).CommandError()
        <==> message.None? || Words(message.value) == [] || Words(message.value)[0] != "200"
  {
  }

  /** A line whose code is not "200" has an empty result and is a command error, whatever follows the code. */
  lemma NonSuccessCode(command: string, code: string, tail: string)
    requires IsField(code) && code != "200"
    requires tail == [] || IsSpace(tail[0])
    ensures Decodable(Some(code + tail))
    ensures var r := Decode(command, Some(code + tail));
      r.CommandError() && r.Result() == "" && r.returnCode == Some(code)
  {
    WordsCons(code, tail);
  }

  lemma ResultValueOf(value: string)
    requires '=' !in value
    ensures ResultValue("result=" + value) == if value == "" then None else Some(value)
  {
    PiecesCons("result", '=', value);
    assert "result" + ['='] + value == "result=" + value;
  }

  /** Dropping trailing empty fields keeps a non-empty second field. */
  lemma {:induction false} KeepsSecondField(ps: seq<string>)
    requires |ps| >= 2 && ps[1] != ""
    ensures |DropTrailingEmpty(ps)| >= 2 && DropTrailingEmpty(ps)[1] == ps[1]
  {
    DropTrailingEmptyShape(ps);
  }

  /** Only the text between the first and the second `=` is kept; whatever follows a second `=` is dropped. */
  lemma {:induction false} ResultValueStopsAtEquals(key: string, value: string, rest: string)
    requires '=' !in key && '=' !in value && value != ""
    ensures ResultValue(key + "=" + value + "=" + rest) == Some(value)
  {
    var s := key + "=" + value + "=" + rest;
    var tail := value + ['='] + rest;
    assert s == key + ['='] + tail;
    PiecesCons(key, '=', tail);
    PiecesCons(value, '=', rest);
    assert Pieces(s, '=') == [key] + ([value] + Pieces(rest, '='));
    KeepsSecondField(Pieces(s, '='));
  }

  lemma FieldAfterKey(key: string, value: string)
    requires IsField(key) && NoSpace(value)
    ensures IsField(key + value)
  {
    var s := key + value;
    forall i | 0 <= i < |s| ensures !IsSpace(s[i]) {
      if i < |key| { assert s[i] == key[i]; } else { assert s[i] == value[i - |key|]; }
    }
  }

  /** The fields of a success line: "200", then `result=<value>`, then whatever the tail holds. */
  lemma SuccessLineWords(value: string, tail: string)
    requires NoSpace(value)
    requires tail == [] || IsSpace(tail[0])
    ensures Words(SuccessLine(value, tail)) == ["200", "result=" + value] + Words(tail)
  {
    var second := "result=" + value;
    FieldAfterKey("result=", value);
    assert IsField("200");
    WordsTwo("200", second, tail);
  }

  /**
   * `200 result=V` decodes to the result V and no command error, whatever
   * whitespace-separated text follows; `result=` with nothing after it
   * gives the empty result.
   */
  lemma DecodeSuccessLine(command: string, value: string, tail: string)
    requires NoSpace(value) && '=' !in value
    requires tail == [] || IsSpace(tail[0])
    ensures Decodable(Some(SuccessLine(value, tail)))
    ensures var r := Decode(command, Some(SuccessLine(value, tail)));
      && !r.CommandError()
      && r.Result() == value && r.Digits() == value
      && r.rawResult == (if value == "" then None else Some(value))
  {
    SuccessLineWords(value, tail);
    ResultValueOf(value);
  }

  /** `200 result=0` is a success with result "0" and no digit. */
  lemma ZeroResultSucceeds(command: string, tail: string)
    requires tail == [] || IsSpace(tail[0])
    ensures Decodable(Some(SuccessLine("0", tail)))
    ensures var r := Decode(command, Some(SuccessLine("0", tail)));
      !r.CommandError() && r.Result() == "0" && r.Digit() == NoDigit
  {
    assert NoSpace("0") && '=' !in "0";
    DecodeSuccessLine(command, "0", tail);
  }

  /** `200 result=-1` is NOT a command error: the code is 200, and the result is never nil. */
  lemma FailureResultIsNoCommandError(command: string, tail: string)
    requires tail == [] || IsSpace(tail[0])
    ensures Decodable(Some(SuccessLine("-1", tail)))
    ensures var r := Decode(command, Some(SuccessLine("-1", tail)));
      !r.CommandError() && r.Result() == "-1"
  {
    assert NoSpace("-1") && '=' !in "-1";
    DecodeSuccessLine(command, "-1", tail);
  }

  /** The `(timeout)` marker anywhere in the line makes `timeout?` true. */
  lemma TimeoutMarker(command: string, before: string, after: string)
    requires Decodable(Some(before + "(timeout)" + after))
    ensures Decode(command, Some(before + "(timeout)" + after)).Timeout()
  {
    ContainsAt(before, "(timeout)", after);
  }

  /** `timeout?` is true only when the marker occurs at some position of the line. */
  lemma TimeoutNeedsMarker(command: string, message: Option<string>) returns (i: nat)
    requires Decodable(message)
    requires Decode(command, message).Timeout()
    ensures message.Some? && i + 9 <= |message.value| && message.value[i..i + 9] == "(timeout)"
  {
    i := ContainsWitness(message.value, "(timeout)");
  }

  lemma IntToStringIsZero(code: int)
    ensures IntToString(code) == "0" <==> code == 0
  {
    if code < 0 {
      assert IntToString(code)[0] == '-';
    } else if code >= 10 {
      assert |NatToString(code)| >= 2;
    }
  }

  /**
   * `digit` on the reply to a digit-reading command: nil for result 0, the
   * character whose code the result holds for 1 to 255, and a RangeError
   * from `chr` otherwise (as for the failure result -1).
   */
  lemma DigitOfCode(command: string, code: int)
    ensures Decodable(Some(SuccessLine(IntToString(code), "\n")))
    ensures Decode(command, Some(SuccessLine(IntToString(code), "\n"))).Digit()
         == if code == 0 then NoDigit
            else if 0 < code < 256 then Char(code as char)
            else OutOfRange(code)
  {
    var v := IntToString(code);
    DecodeSuccessLine(command, v, "\n");
    ToIOfIntToString(code);
    IntToStringIsZero(code);
  }

  /** `digit` is nil exactly when the stored result is "0". */
  lemma NoDigitIff(r: ReturnStatus)
    ensures r.Digit() == NoDigit <==> r.rawResult == Some("0")
  {
  }

  /** `to_s` is the chomped command, " >> ", then the raw line as received. */
  lemma ToStringShape(command: string, message: Option<string>)
    requires Decodable(message)
    ensures Decode(command, message).ToString() == Chomp(command) + " >> " + message.GetOr("")
  {
  }
}
