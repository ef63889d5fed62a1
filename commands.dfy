/**
 * The command layer: each public command of `Command` formats one line,
 * checks its arguments, writes the line, reads one response line, decodes
 * it, and raises CommandError when the decoded status says so.
 */
module Commands {
  import opened Wrappers
  import opened RubyText
  import opened Status
  import opened Streams

  /** What a command raises. */
  datatype AgiError =
    | CommandError(text: string)   // `raise CommandError, rs.to_s`
    | HangupError(text: string)    // a broken pipe while writing the command
    | ArgumentError(text: string)  // an argument check before anything is sent
    | NoMethodError                // `str[1].split` on a "200" line without a second field; `dial` with SIP

  const HangupText := "Line hung up during command execution!!"
  const TimeoutText := "timeout need to be positive"
  const RecordText := "need at least one valid escape digit or timeout need te positive"

  /** The Ruby values a mode argument can take, compared with `==` as Ruby compares them. */
  datatype RubyValue = RTrue | RFalse | RNil | RInt(i: int) | RText(s: string)

  // ---------------------------------------------------------------------------
  // sanitisers

  /** `sanitize_timeout`: nil or not positive becomes -1, seconds become milliseconds. */
  function SanitizeTimeout(timeout: Option<int>): (t: int)
    ensures t == -1 || t >= 1000
    ensures t == -1 <==> timeout.None? || timeout.value <= 0
    ensures t != -1 ==> t == timeout.value * 1000
  {
    if timeout.None? || timeout.value <= 0 then -1 else timeout.value * 1000
  }

  /** -1 is a fixed point; a positive value sanitised twice is multiplied by a million. */
  lemma SanitizeTimeoutTwice(timeout: Option<int>)
    ensures SanitizeTimeout(Some(-1)) == -1
    ensures var once := SanitizeTimeout(timeout);
      SanitizeTimeout(Some(once)) == if once == -1 then -1 else timeout.value * 1000000
  {
  }

  /** `sanitize_escape_digits`: nil means "#", an empty string means "X" (no digit), anything else is kept. */
  function SanitizeEscapeDigits(digits: Option<string>): (r: string)
    ensures r != ""
    ensures r == "#" <==> digits == None || digits == Some("#")
    ensures r == "X" <==> digits == Some("") || digits == Some("X")
    ensures digits.Some? && digits.value != "" ==> r == digits.value
  {
    match digits
    case None => "#"
    case Some(d) => if |d| == 0 then "X" else d
  }

  /** Sanitising escape digits twice changes nothing more. */
  lemma SanitizeEscapeDigitsIdempotent(digits: Option<string>)
    ensures SanitizeEscapeDigits(Some(SanitizeEscapeDigits(digits))) == SanitizeEscapeDigits(digits)
  {
  }

  /** `sanitize_file_format`: nil or empty means "gsm", anything else is kept. */
  function SanitizeFileFormat(format: Option<string>): (r: string)
    ensures r != ""
    ensures format.Some? && format.value != "" ==> r == format.value
    ensures r == "gsm" <==> format.None? || format.value == "" || format.value == "gsm"
  {
    if format.None? || |format.value| == 0 then "gsm" else format.value
  }

  lemma SanitizeFileFormatIdempotent(format: Option<string>)
    ensures SanitizeFileFormat(Some(SanitizeFileFormat(format))) == SanitizeFileFormat(format)
  {
  }

  /**
   * `sanitize_max_digit`, as the text it becomes in the command: empty for
   * nil or not positive, otherwise the decimal digits of the count, which
   * `to_i` reads back.
   */
  function SanitizeMaxDigit(maxDigit: Option<int>): (r: string)
    ensures r == "" <==> maxDigit.None? || maxDigit.value <= 0
    ensures r != "" ==> IsField(r) && ToI(r) == maxDigit.value
  {
    if maxDigit.None? || maxDigit.value <= 0 then ""
    else
      ToIOfIntToString(maxDigit.value);
      IntToString(maxDigit.value)
  }

  /** `set_music`: OFF only for the integer 0; `false`, nil and every other value turn music on. */
  function MusicSwitch(mode: RubyValue): (m: string)
    ensures m == "ON" || m == "OFF"
    ensures m == "OFF" <==> mode == RInt(0)
  {
    if mode == RTrue || !(mode == RInt(0)) then "ON" else "OFF"
  }

  /** `tdd_mode`: OFF only for the integer 1; `false`, 0 and every other value turn TDD on. */
  function TddSwitch(mode: RubyValue): (m: string)
    ensures m == "ON" || m == "OFF"
    ensures m == "OFF" <==> mode == RInt(1)
  {
    if mode == RTrue || !(mode == RInt(1)) then "ON" else "OFF"
  }

  // ---------------------------------------------------------------------------
  // the commands

  /**
   * One call of a public command, with its arguments as the caller passed
   * them: nil is None, and a text argument is the argument's `to_s`.
   */
  datatype Request =
    | Answer
    | SetAutoHangup(secs: int)
    | ChannelStatus(channel: Option<string>)
    | Exec(application: string, options: Option<string>)
    | WaitForDigits(filename: string, timeout: Option<int>, maxDigit: Option<int>)
    | GetVariable(name: string)
    | Hangup(channel: Option<string>)
    | Noop(msg: string)
    | ReceiveChar(timeout: Option<int>)
    | ReceiveText(timeout: Option<int>)
    | RecordFile(filename: string, format: Option<string>, escapeDigits: Option<string>, timeout: Option<int>, beep: RubyValue)
    | SayDigits(digitString: string, escapeDigits: Option<string>)
    | SayNumber(number: string, escapeDigits: Option<string>)
    | SayPhonetic(text: string, escapeDigits: Option<string>)
    | SayTime(time: int, escapeDigits: Option<string>)
    | SendImage(image: string)
    | SendText(text: string)
    | SetCallerId(number: string)
    | SetContext(context: string)
    | SetExtension(extension: string)
    | SetMusic(mode: RubyValue, mohClass: string)
    | SetPriority(priority: string)
    | SetVariable(name: string, value: string)
    | StreamFile(filename: string, escapeDigits: Option<string>)
    | TddMode(mode: RubyValue)
    | Verbose(message: string, level: int)
    | WaitForDigit(timeout: Option<int>)
    | RawCommand(cmd: string)

  /** The `raise ArgumentError` checks, made before anything is written. */
  function Rejection(req: Request): Option<AgiError> {
    match req
    case ReceiveChar(t) => if SanitizeTimeout(t) < 1 then Some(ArgumentError(TimeoutText)) else None
    case ReceiveText(t) => if SanitizeTimeout(t) < 1 then Some(ArgumentError(TimeoutText)) else None
    case RecordFile(_, _, esc, t, _) =>
      if SanitizeEscapeDigits(esc) == "X" && SanitizeTimeout(t) == -1 then Some(ArgumentError(RecordText)) else None
    case _ => None
  }

  /** A command line: its fields separated by single spaces, as the interpolated string literal lays them out. */
  function Line(fields: seq<string>): string {
    Join(fields, ' ')
  }

  /** The line each command writes. */
  function CommandText(req: Request): string {
    match req
    case Answer => "ANSWER"
    case SetAutoHangup(secs) => Line(["SET", "AUTOHANGUP", IntToString(secs)])
    case ChannelStatus(channel) => Line(["CHANNEL", "STATUS", channel.GetOr("")])
    case Exec(application, options) => Line(["EXEC", application, options.GetOr("")])
    case WaitForDigits(filename, timeout, maxDigit) =>
      Line(["GET", "DATA", filename, IntToString(SanitizeTimeout(timeout)), SanitizeMaxDigit(maxDigit)])
    case GetVariable(name) => Line(["GET", "VARIABLE", name])
    case Hangup(channel) => Line(["HANGUP", channel.GetOr("")])
    case Noop(msg) => Line(["NOOP", msg])
    case ReceiveChar(timeout) => Line(["RECEIVE", "CHAR", IntToString(SanitizeTimeout(timeout))])
    case ReceiveText(timeout) => Line(["RECEIVE", "TEXT", IntToString(SanitizeTimeout(timeout))])
    case RecordFile(filename, format, escapeDigits, timeout, beep) =>
      Line(["RECORD", "FILE", filename, SanitizeFileFormat(format), SanitizeEscapeDigits(escapeDigits),
            IntToString(SanitizeTimeout(timeout))]
           + (if beep == RTrue then ["beep"] else []))
    case SayDigits(digitString, escapeDigits) => Line(["SAY", "DIGITS", digitString, SanitizeEscapeDigits(escapeDigits)])
    case SayNumber(number, escapeDigits) => Line(["SAY", "NUMBER", number, SanitizeEscapeDigits(escapeDigits)])
    case SayPhonetic(text, escapeDigits) => Line(["SAY", "PHONETIC", text, SanitizeEscapeDigits(escapeDigits)])
    case SayTime(time, escapeDigits) => Line(["SAY", "TIME", IntToString(time), SanitizeEscapeDigits(escapeDigits)])
    case SendImage(image) => Line(["SEND", "IMAGE", image])
    case SendText(text) => Line(["SEND", "TEXT", text])
    case SetCallerId(number) => Line(["SET", "CALLERID", number])
    case SetContext(context) => Line(["SET", "CONTEXT", context])
    case SetExtension(extension) => Line(["SET", "EXTENSION", extension])
    case SetMusic(mode, mohClass) => Line(["SET", "MUSIC", MusicSwitch(mode), mohClass])
    case SetPriority(priority) => Line(["SET", "PRIORITY", priority])
    case SetVariable(name, value) => Line(["SET", "VARIABLE", name, "\"" + value + "\""])
    case StreamFile(filename, escapeDigits) => Line(["STREAM", "FILE", filename, SanitizeEscapeDigits(escapeDigits)])
    case TddMode(mode) => Line(["TDD", "MODE", TddSwitch(mode)])
    case Verbose(message, level) => Line(["VERBOSE", "\"" + message + "\"", IntToString(level)])
    case WaitForDigit(timeout) => Line(["WAIT", "FOR", "DIGIT", IntToString(SanitizeTimeout(timeout))])
    case RawCommand(cmd) => cmd
  }

  /**
   * `exec_command`: write the line, read one line, decode it. A write after
   * the engine hung up raises HangupError; a "200" line without a second
   * field raises NoMethodError in the decoder.
   */
  function Exchange(s: IoState, cmd: string): (Result<ReturnStatus, AgiError>, IoState) {
    var put := Put(s, cmd);
    if !put.1 then (Failure(HangupError(HangupText)), put.0)
    else
      var got := Get(put.0);
      if Decodable(got.0) then (Success(Decode(cmd, got.0)), got.1) else (Failure(NoMethodError), got.1)
  }

  /** `raise CommandError, rs.to_s if rs.command_error?`, then `return rs`. */
  function Checked(r: Result<ReturnStatus, AgiError>): Result<ReturnStatus, AgiError> {
    if r.Success? && r.value.CommandError() then Failure(CommandError(r.value.ToString())) else r
  }

  /** One public command: its argument checks, the exchange, and the command-error check. */
  function Perform(req: Request, s: IoState): (Result<ReturnStatus, AgiError>, IoState) {
    var rejected := Rejection(req);
    if rejected.Some? then (Failure(rejected.value), s)
    else
      var ex := Exchange(s, CommandText(req));
      (Checked(ex.0), ex.1)
  }

  // ---------------------------------------------------------------------------
  // properties of the exchange

  /** A live exchange writes exactly the command and reads exactly one line, if there is one. */
  lemma ExchangeIo(s: IoState, cmd: string)
    ensures var (r, t) := Exchange(s, cmd);
      && (s.hungUp ==> t == s && r == Failure(HangupError(HangupText)))
      && (!s.hungUp ==>
            && t.output == s.output + [cmd] && !t.hungUp
            && t.input == (if s.input == [] then [] else s.input[1..]))
  {
  }

  /** The status returned is the decoded response to the command, or nil's status when the input ended. */
  lemma ExchangeDecodes(s: IoState, cmd: string)
    requires !s.hungUp
    ensures var line := if s.input == [] then None else Some(s.input[0]);
      && (Decodable(line) ==> Exchange(s, cmd).0 == Success(Decode(cmd, line)))
      && (!Decodable(line) ==> Exchange(s, cmd).0 == Failure(NoMethodError))
  {
  }

  /** A command raises CommandError exactly when it got through its checks and the decoded status is a command error. */
  lemma CommandErrorIff(req: Request, s: IoState)
    ensures var r := Perform(req, s).0;
      (r.Failure? && r.error.CommandError?)
      <==> (Rejection(req).None? && Exchange(s, CommandText(req)).0.Success?
            && Exchange(s, CommandText(req)).0.value.CommandError())
    ensures var r := Perform(req, s).0;
      r.Success? ==> r == Exchange(s, CommandText(req)).0 && !r.value.CommandError()
  {
  }

  /** A rejected command writes nothing and reads nothing. */
  lemma RejectedSendsNothing(req: Request, s: IoState)
    requires Rejection(req).Some?
    ensures Perform(req, s) == (Failure(Rejection(req).value), s)
  {
  }

  /** A command that returns normally wrote its line, and read one line. */
  lemma SuccessWroteCommand(req: Request, s: IoState)
    requires Perform(req, s).0.Success?
    ensures var t := Perform(req, s).1;
      t.output == s.output + [CommandText(req)] && s.input != [] && t.input == s.input[1..]
  {
    var ex := Exchange(s, CommandText(req));
    if s.input == [] {
      NilResponse(CommandText(req));
    }
  }

  /** `answer` on a `200 result=0` response returns a status with result "0", no command error and no digit. */
  lemma AnswerSucceeds(s: IoState, tail: string)
    requires !s.hungUp && s.input != [] && s.input[0] == SuccessLine("0", tail)
    requires tail == [] || IsSpace(tail[0])
    ensures var r := Perform(Answer, s).0;
      r.Success? && r.value.Result() == "0" && r.value.Digit() == NoDigit && r.value.command == "ANSWER"
  {
    ZeroResultSucceeds("ANSWER", tail);
  }

  /** `raw_command` on a `510` response raises CommandError with the exchange as its text. */
  lemma RawCommandRejected(s: IoState, cmd: string, tail: string)
    requires !s.hungUp && s.input != [] && s.input[0] == "510" + tail
    requires tail == [] || IsSpace(tail[0])
    ensures Perform(RawCommand(cmd), s).0 == Failure(CommandError(Chomp(cmd) + " >> " + ("510" + tail)))
  {
    assert IsField("510");
    PerformRaw(cmd, s);
    NonSuccessCode(cmd, "510", tail);
    ToStringShape(cmd, Some("510" + tail));
  }

  /** `raw_command` writes its argument as it is, with no argument check. */
  lemma PerformRaw(cmd: string, s: IoState)
    ensures Perform(RawCommand(cmd), s) == (Checked(Exchange(s, cmd).0), Exchange(s, cmd).1)
  {
  }

  // ---------------------------------------------------------------------------
  // properties of the argument checks and the command lines

  /** `receive_char` and `receive_text` raise ArgumentError exactly for a nil, zero or negative timeout. */
  lemma ReceiveRejects(t: Option<int>)
    ensures Rejection(ReceiveChar(t)).Some? <==> t.None? || t.value <= 0
    ensures Rejection(ReceiveText(t)).Some? <==> t.None? || t.value <= 0
  {
  }

  /** `record_file` raises ArgumentError exactly when it has no escape digit (an empty string) and no positive timeout. */
  lemma RecordFileRejects(f: string, format: Option<string>, esc: Option<string>, t: Option<int>, beep: RubyValue)
    ensures Rejection(RecordFile(f, format, esc, t, beep)).Some?
        <==> (esc == Some("") || esc == Some("X")) && (t.None? || t.value <= 0)
  {
  }

  /**
   * The fields of the `RECORD FILE` line, as the engine splits it: the file,
   * the format, the escape digits, the timeout in milliseconds, and `beep`
   * only when `beep == true`.
   */
  lemma RecordFileWords(f: string, format: Option<string>, esc: Option<string>, t: Option<int>, beep: RubyValue)
    requires IsField(f) && IsField(SanitizeFileFormat(format)) && IsField(SanitizeEscapeDigits(esc))
    ensures Words(CommandText(RecordFile(f, format, esc, t, beep)))
         == ["RECORD", "FILE", f, SanitizeFileFormat(format), SanitizeEscapeDigits(esc), IntToString(SanitizeTimeout(t))]
            + (if beep == RTrue then ["beep"] else [])
  {
    var ws := ["RECORD", "FILE", f, SanitizeFileFormat(format), SanitizeEscapeDigits(esc), IntToString(SanitizeTimeout(t))]
              + (if beep == RTrue then ["beep"] else []);
    RecordFileLine(f, format, esc, t, beep, ws);
    assert IsField("RECORD") && IsField("FILE") && IsField("beep");
    WordsOfJoin(ws);
  }

  lemma RecordFileLine(f: string, format: Option<string>, esc: Option<string>, t: Option<int>, beep: RubyValue, ws: seq<string>)
    requires ws == ["RECORD", "FILE", f, SanitizeFileFormat(format), SanitizeEscapeDigits(esc), IntToString(SanitizeTimeout(t))]
                   + (if beep == RTrue then ["beep"] else [])
    ensures CommandText(RecordFile(f, format, esc, t, beep)) == Join(ws, ' ')
  {
  }

  /** A line whose last field may be empty: an empty last field leaves only a trailing space, which `split(' ')` ignores. */
  lemma WordsOfLineThen(ws: seq<string>, last: string)
    requires ws != [] && forall i :: 0 <= i < |ws| ==> IsField(ws[i])
    requires last == "" || IsField(last)
    ensures Words(Line(ws + [last])) == ws + (if last == "" then [] else [last])
  {
    if last == "" {
      WordsOfJoinThenEmpty(ws);
    } else {
      var all := ws + [last];
      forall i | 0 <= i < |all| ensures IsField(all[i]) {
        if i < |ws| { assert all[i] == ws[i]; }
      }
      WordsOfJoin(all);
    }
  }

  /** The fields of the `GET DATA` line: the empty max-digit text of a nil count leaves no field behind. */
  lemma {:induction false} GetDataWords(f: string, t: Option<int>, m: Option<int>)
    requires IsField(f)
    ensures Words(CommandText(WaitForDigits(f, t, m)))
         == ["GET", "DATA", f, IntToString(SanitizeTimeout(t))]
            + (if SanitizeMaxDigit(m) == "" then [] else [SanitizeMaxDigit(m)])
  {
    GetDataLine(f, t, m);
    GetDataFields(f, IntToString(SanitizeTimeout(t)), SanitizeMaxDigit(m));
  }

  /** `GET DATA <file> <ms> <max>` split on whitespace, for any field values. */
  lemma {:induction false} GetDataFields(f: string, ms: string, md: string)
    requires IsField(f) && IsField(ms) && (md == "" || IsField(md))
    ensures Words(Line(["GET", "DATA", f, ms] + [md])) == ["GET", "DATA", f, ms] + (if md == "" then [] else [md])
  {
    var ws := ["GET", "DATA", f, ms];
    assert IsField("GET") && IsField("DATA");
    assert forall i :: 0 <= i < |ws| ==> IsField(ws[i]);
    WordsOfLineThen(ws, md);
  }

  lemma GetDataLine(f: string, t: Option<int>, m: Option<int>)
    ensures CommandText(WaitForDigits(f, t, m)) == Line(["GET", "DATA", f, IntToString(SanitizeTimeout(t))] + [SanitizeMaxDigit(m)])
  {
    var ms, md := IntToString(SanitizeTimeout(t)), SanitizeMaxDigit(m);
    assert ["GET", "DATA", f, ms, md] == ["GET", "DATA", f, ms] + [md];
  }

  // ---------------------------------------------------------------------------
  // dial and jump_to

  /**
   * The `dial_string` of `dial`, or None where `dial` returns nil before
   * dispatching. IAX2 strips the number; the timeout and options fields
   * are empty when nil.
   */
  function DialString(number: Option<string>, protocol: Option<string>, username: Option<string>,
                      context: Option<string>, timeout: Option<string>, options: Option<string>): Option<string>
    requires protocol != Some("SIP")
  {
    match DialTarget(number, protocol, username, context)
    case None => None
    case Some(h) => Some(h + "|" + timeout.GetOr("") + "|" + options.GetOr(""))
  }

  /** The destination part of the dial string, before the timeout and the options. */
  function DialTarget(number: Option<string>, protocol: Option<string>, username: Option<string>,
                      context: Option<string>): Option<string>
  {
    if protocol == Some("LOCAL") then
      if number.None? || context.None? then None
      else Some("LOCAL/" + number.value + "@" + context.value)
    else if protocol == Some("IAX2") then
      if number.None? || username.None? || context.None? then None
      else Some("IAX2/" + username.value + "@" + context.value + "/" + Strip(number.value))
    else None
  }

  /**
   * `dial` as a whole: SIP leaves `dial_string` nil, so `dial_string += "|"`
   * raises NoMethodError before anything is sent; otherwise nil without a
   * dispatch when there is no dial string, or `exec('DIAL', dial_string)`.
   */
  function DialSpec(number: Option<string>, protocol: Option<string>, username: Option<string>,
                    context: Option<string>, timeout: Option<string>, options: Option<string>, s: IoState)
    : (Result<Option<ReturnStatus>, AgiError>, IoState)
  {
    if protocol == Some("SIP") then (Failure(NoMethodError), s)
    else
      var d := DialString(number, protocol, username, context, timeout, options);
      MaybePerform(if d.None? then None else Some(Exec("DIAL", d)), s)
  }

  /** `dial` returns nil without dispatching exactly for an unknown protocol or a missing argument. */
  lemma DialNil(number: Option<string>, protocol: Option<string>, username: Option<string>,
                context: Option<string>, timeout: Option<string>, options: Option<string>)
    requires protocol != Some("SIP")
    ensures DialString(number, protocol, username, context, timeout, options).None?
        <==> || (protocol != Some("LOCAL") && protocol != Some("IAX2"))
             || (protocol == Some("LOCAL") && (number.None? || context.None?))
             || (protocol == Some("IAX2") && (number.None? || username.None? || context.None?))
  {
  }

  /**
   * The Dial application splits its argument on `|`: a LOCAL dial string
   * gives back the destination, the timeout and the options.
   */
  lemma LocalDialFields(number: string, context: string, timeout: Option<string>, options: Option<string>)
    requires '|' !in number && '|' !in context
    requires '|' !in timeout.GetOr("") && '|' !in options.GetOr("")
    ensures var d := DialString(Some(number), Some("LOCAL"), None, Some(context), timeout, options);
      d.Some? && Pieces(d.value, '|') == ["LOCAL/" + number + "@" + context, timeout.GetOr(""), options.GetOr("")]
  {
    var head := "LOCAL/" + number + "@" + context;
    assert DialTarget(Some(number), Some("LOCAL"), None, Some(context)) == Some(head);
    NoBarIn3("LOCAL/", number, "@", context);
    DialFields(head, timeout.GetOr(""), options.GetOr(""));
  }

  /** The same for IAX2, whose number is stripped first. */
  lemma IaxDialFields(number: string, username: string, context: string, timeout: Option<string>, options: Option<string>)
    requires '|' !in number && '|' !in username && '|' !in context
    requires '|' !in timeout.GetOr("") && '|' !in options.GetOr("")
    ensures var d := DialString(Some(number), Some("IAX2"), Some(username), Some(context), timeout, options);
      d.Some? && Pieces(d.value, '|') == ["IAX2/" + username + "@" + context + "/" + Strip(number), timeout.GetOr(""), options.GetOr("")]
  {
    var n := Strip(number);
    StripKeepsOut(number, '|');
    var head := "IAX2/" + username + "@" + context + "/" + n;
    assert DialTarget(Some(number), Some("IAX2"), Some(username), Some(context)) == Some(head);
    NoBarIn3("IAX2/", username, "@", context);
    NoBarIn3("IAX2/" + username + "@" + context, "/", n, "");
    assert head == "IAX2/" + username + "@" + context + "/" + n + "";
    DialFields(head, timeout.GetOr(""), options.GetOr(""));
  }

  lemma NoBarIn3(a: string, b: string, c: string, d: string)
    requires '|' !in a && '|' !in b && '|' !in c && '|' !in d
    ensures '|' !in a + b + c + d
  {
  }

  lemma DialFields(head: string, t: string, o: string)
    requires '|' !in head && '|' !in t && '|' !in o
    ensures Pieces(head + "|" + t + "|" + o, '|') == [head, t, o]
  {
    assert head + "|" + t + "|" + o == head + ['|'] + (t + ['|'] + o);
    PiecesCons(head, '|', t + ['|'] + o);
    PiecesCons(t, '|', o);
  }

  /** `cmd(arg) if not arg.nil?`: nil, or the command's status. */
  function MaybePerform(req: Option<Request>, s: IoState): (Result<Option<ReturnStatus>, AgiError>, IoState) {
    if req.None? then (Success(None), s)
    else
      var p := Perform(req.value, s);
      (if p.0.Success? then Success(Some(p.0.value)) else Failure(p.0.error), p.1)
  }

  /** The next statement runs only when the previous one did not raise. */
  function Then(prev: (Result<Option<ReturnStatus>, AgiError>, IoState), req: Option<Request>)
    : (Result<Option<ReturnStatus>, AgiError>, IoState)
  {
    if prev.0.Failure? then prev else MaybePerform(req, prev.1)
  }

  /** `jump_to`: set the context, the extension and the priority, each only when given; the first error stops it. */
  function JumpToSpec(context: Option<string>, extension: Option<string>, priority: Option<string>, s: IoState)
    : (Result<Option<ReturnStatus>, AgiError>, IoState)
  {
    var c := MaybePerform(if context.None? then None else Some(SetContext(context.value)), s);
    var e := Then(c, if extension.None? then None else Some(SetExtension(extension.value)));
    Then(e, if priority.None? then None else Some(SetPriority(priority.value)))
  }

  /** The line a request writes, none for no request. */
  function Lines(req: Option<Request>): seq<string> {
    if req.None? then [] else [CommandText(req.value)]
  }

  /** The lines a successful `jump_to` writes, in order. */
  function JumpToLines(context: Option<string>, extension: Option<string>, priority: Option<string>): seq<string> {
    (if context.Some? then [CommandText(SetContext(context.value))] else [])
    + (if extension.Some? then [CommandText(SetExtension(extension.value))] else [])
    + (if priority.Some? then [CommandText(SetPriority(priority.value))] else [])
  }

  /** A command that was skipped or returned wrote its own line and nothing else, and gave a status exactly when it ran. */
  lemma MaybePerformWrites(req: Option<Request>, s: IoState)
    requires MaybePerform(req, s).0.Success?
    ensures MaybePerform(req, s).1.output == s.output + Lines(req)
    ensures MaybePerform(req, s).0.value.None? <==> req.None?
  {
    if req.Some? {
      SuccessWroteCommand(req.value, s);
    } else {
      assert s.output + [] == s.output;
    }
  }

  /** A chain that returned: every earlier step returned, and this one added its own line. */
  lemma ThenWrites(prev: (Result<Option<ReturnStatus>, AgiError>, IoState), req: Option<Request>)
    requires Then(prev, req).0.Success?
    ensures prev.0.Success?
    ensures Then(prev, req).1.output == prev.1.output + Lines(req)
    ensures Then(prev, req).0.value.None? <==> req.None?
  {
    MaybePerformWrites(req, prev.1);
  }

  /**
   * A `jump_to` that returns writes exactly the commands for the arguments
   * given, in the order context, extension, priority, and returns nil
   * exactly when the priority is nil.
   */
  lemma {:induction false} JumpToWrites(context: Option<string>, extension: Option<string>, priority: Option<string>, s: IoState)
    requires JumpToSpec(context, extension, priority, s).0.Success?
    ensures var (r, t) := JumpToSpec(context, extension, priority, s);
      t.output == s.output + JumpToLines(context, extension, priority)
      && (r.value.None? <==> priority.None?)
  {
    var cr := if context.None? then None else Some(SetContext(context.value));
    var er := if extension.None? then None else Some(SetExtension(extension.value));
    var pr := if priority.None? then None else Some(SetPriority(priority.value));
    var c := MaybePerform(cr, s);
    var e := Then(c, er);
    ThenWrites(e, pr);
    ThenWrites(c, er);
    MaybePerformWrites(cr, s);
    assert JumpToLines(context, extension, priority) == Lines(cr) + Lines(er) + Lines(pr);
  }

  /**
   * `dial` with SIP raises before sending anything; without a dial string it
   * returns nil and sends nothing; a dial that returns a status wrote exactly
   * `EXEC DIAL <dial string>`.
   */
  lemma DialDispatch(number: Option<string>, protocol: Option<string>, username: Option<string>,
                     context: Option<string>, timeout: Option<string>, options: Option<string>, s: IoState)
    ensures protocol == Some("SIP") ==> DialSpec(number, protocol, username, context, timeout, options, s) == (Failure(NoMethodError), s)
    ensures protocol != Some("SIP") && DialString(number, protocol, username, context, timeout, options).None?
        ==> DialSpec(number, protocol, username, context, timeout, options, s) == (Success(None), s)
    ensures protocol != Some("SIP") && DialString(number, protocol, username, context, timeout, options).Some?
        && DialSpec(number, protocol, username, context, timeout, options, s).0.Success?
        ==> DialSpec(number, protocol, username, context, timeout, options, s).1.output
            == s.output + ["EXEC DIAL " + DialString(number, protocol, username, context, timeout, options).value]
  {
    if protocol != Some("SIP") {
      var d := DialString(number, protocol, username, context, timeout, options);
      if d.Some? && DialSpec(number, protocol, username, context, timeout, options, s).0.Success? {
        MaybePerformWrites(Some(Exec("DIAL", d)), s);
        ExecDialLine(d.value);
      }
    }
  }

  /** `exec('DIAL', x)` writes `EXEC DIAL x`. */
  lemma ExecDialLine(x: string)
    ensures CommandText(Exec("DIAL", Some(x))) == "EXEC DIAL " + x
  {
    assert ["EXEC", "DIAL", x][1..] == ["DIAL", x];
    assert ["DIAL", x][1..] == [x];
    assert Join(["DIAL", x], ' ') == "DIAL" + [' '] + x;
    assert Join(["EXEC", "DIAL", x], ' ') == "EXEC" + [' '] + ("DIAL" + [' '] + x);
    assert "EXEC" + [' '] + ("DIAL" + [' '] + x) == "EXEC DIAL " + x;
  }

  /** With no argument `jump_to` does nothing and returns nil. */
  lemma JumpToNothing(s: IoState)
    ensures JumpToSpec(None, None, None, s) == (Success(None), s)
  {
  }

  // ---------------------------------------------------------------------------
  // the object

  class Command {
    const io: Stdio

    constructor(io: Stdio)
      ensures this.io == io
    {
      this.io := io;
    }

    /** `exec_command` */
    method ExecCommand(cmd: string) returns (r: Result<ReturnStatus, AgiError>)
      modifies io
      ensures (r, io.State()) == Exchange(old(io.State()), cmd)
    {
      var ok := io.Puts(cmd);
      if !ok {
        return Failure(HangupError(HangupText));
      }
      var response := io.Gets();
      if !Decodable(response) {
        return Failure(NoMethodError);
      }
      r := Success(Decode(cmd, response));
    }

    /** Any public command but `dial` and `jump_to`. */
    method Run(req: Request) returns (r: Result<ReturnStatus, AgiError>)
      modifies io
      ensures (r, io.State()) == Perform(req, old(io.State()))
    {
      var rejected := Rejection(req);
      if rejected.Some? {
        return Failure(rejected.value);
      }
      var rs := ExecCommand(CommandText(req));
      if rs.Success? && rs.value.CommandError() {
        return Failure(CommandError(rs.value.ToString()));
      }
      r := rs;
    }

    /** `dial`: build the dial string, then `exec('DIAL', dial_string)`; nil when there is no dial string. */
    method Dial(number: Option<string>, protocol: Option<string>, username: Option<string>,
                context: Option<string>, timeout: Option<string>, options: Option<string>)
      returns (r: Result<Option<ReturnStatus>, AgiError>)
      modifies io
      ensures (r, io.State()) == DialSpec(number, protocol, username, context, timeout, options, old(io.State()))
    {
      var head: string;
      if protocol == Some("SIP") {
        return Failure(NoMethodError);
      } else if protocol == Some("LOCAL") {
        if number.None? || context.None? {
          return Success(None);
        }
        head := "LOCAL/" + number.value + "@" + context.value;
      } else if protocol == Some("IAX2") {
        if number.None? || username.None? || context.None? {
          return Success(None);
        }
        var stripped := Strip(number.value);
        head := "IAX2/" + username.value + "@" + context.value + "/" + stripped;
      } else {
        return Success(None);
      }
      var dialString := if timeout.None? then head + "|" else head + "|" + timeout.value;
      assert dialString == head + "|" + timeout.GetOr("");
      dialString := if options.None? then dialString + "|" else dialString + "|" + options.value;
      assert dialString == head + "|" + timeout.GetOr("") + "|" + options.GetOr("");
      var rs := Run(Exec("DIAL", Some(dialString)));
      r := if rs.Success? then Success(Some(rs.value)) else Failure(rs.error);
    }

    /** `jump_to` */
    method JumpTo(context: Option<string>, extension: Option<string>, priority: Option<string>)
      returns (r: Result<Option<ReturnStatus>, AgiError>)
      modifies io
      ensures (r, io.State()) == JumpToSpec(context, extension, priority, old(io.State()))
    {
      r := Success(None);
      if context.Some? {
        var rs := Run(SetContext(context.value));
        if rs.Failure? {
          return Failure(rs.error);
        }
      }
      if extension.Some? {
        var rs := Run(SetExtension(extension.value));
        if rs.Failure? {
          return Failure(rs.error);
        }
      }
      if priority.Some? {
        var rs := Run(SetPriority(priority.value));
        if rs.Failure? {
          return Failure(rs.error);
        }
        r := Success(Some(rs.value));
      }
    }
  }
}
