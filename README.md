# AGI client core, modelled in Dafny

This project models the protocol layer of a Ruby client for the Asterisk
Gateway Interface (AGI). A dialplan script talks to the Asterisk engine over
two pipes: at start-up the engine sends a block of `key: value` lines ended by
a blank line; after that the script writes one command line and reads back one
response line such as `200 result=0`.

The model covers the three core classes of the client:

- `Status` (`return_status.dfy`) — `ReturnStatus`: one response line decoded
  into the return code, the `result=` value, and the `result`, `digit`,
  `digits`, `message`, `to_s`, `command_error?` and `timeout?` views.
  `Decode` is the constructor; the lemmas state what each view gives for the
  lines the engine sends.
- `Environment` (`environment.dfy`) — `AsteriskVariable`: the start-up block
  read once into a hash (`env`, with its `each_line` loop and early `break`,
  as a `while` loop over the input), `read_env`, the `agi_*` accessors, and
  the caller-identity resolver `init_caller_variable` with its cached
  `callerid` / `calleridname` / `calleridnumber` fields. The class is proved
  against the pure specifications `Header`, `Loaded` and `ResolveCaller`.
- `Commands` (`commands.dfy`) — `Command`: the four `sanitize_*` helpers, the
  line each public command writes (`CommandText`), the argument checks made
  before anything is sent (`Rejection`), `exec_command` (`Exchange`), the
  uniform "raise CommandError iff `command_error?`" rule (`Perform`), `dial`
  and `jump_to`. The class methods are proved equal to these functions.

Two supporting modules: `Streams` (`streams.dfy`) stands for `$stdin` and
`$stdout` — a queue of input lines, the log of written lines, and a flag that
the engine has hung up, after which a write fails as `Errno::EPIPE` does.
`RubyText` (`ruby_text.dfy`) gives the Ruby `String` primitives the code
relies on, with their edge cases: `strip`, `chomp`, `split(' ')`,
`split(c)` (which drops trailing empty fields), a literal regular-expression
search, `String#to_i` and `Integer#to_s`. `Wrappers` holds `Option` (Ruby's
nil) and `Result` (a raised exception).

Errors are values of `Commands.AgiError`: `CommandError`, `HangupError`,
`ArgumentError`, and `NoMethodError` for the two places where the Ruby code
crashes on nil (a `200` line without a second field, and `dial` with `SIP`).

Where the code and its comments disagree, the model follows the code:

- `command_error?` tests `result.nil?`, but `result` is `@result.to_s` and is
  never nil, so only the return code matters: `200 result=-1` is not a command
  error, and `answer` returns it instead of raising.
- Header lines are split on every `:` and only the second piece is kept as
  the value; `key:` and a line without a colon store nil.
- A caller id of digits only keeps the raw `agi_calleridname` as the name,
  which is nil when the engine did not send one (not `""`), and `callerid` is
  not rebuilt as `"name" <number>`.
- `/^\d+\d$/` is anchored at line boundaries in Ruby, so the digits branch is
  taken when any newline-separated line of the stripped id is two or more
  digits (`DigitLine`); `/".+"/` likewise does not cross a newline.
- `tdd_mode(1)` sends `OFF` and every other value, `false` and `0` included,
  sends `ON`; `set_music` sends `OFF` only for `0`, so `set_music(false)` sends `ON`.
- The nil-response branch assigns `@messsage` (a misspelling), so `message`
  and `to_s` show an empty message, not `No responses !!`.
- The comment at the head of `lib/agi/command.rb` says a nil `escape_digits`
  means no escape digit, but `sanitize_escape_digits(nil)` gives `#`; the
  model's `SanitizeEscapeDigits` does the same.
- That comment also says `max_digit` is 255 unless given, but
  `sanitize_max_digit(nil)` gives `""`, so `GET DATA` sends no limit; the
  model's `SanitizeMaxDigit` does the same.
- `rdnid` reads `agi_rdnid`, although the comment at the head of the file
  lists `agi_rdnis`; the model reads `agi_rdnid`.

## Model

| member | source | states |
|---|---|---|
| `Status.DecodeSuccessLine` | lib/agi/return_status.rb:41-45 | a `200 result=V` line, whatever follows after whitespace, decodes to no command error and `result == digits == V`; `result=` with nothing after it gives a nil stored result and `result == ""` |
| `Status.ZeroResultSucceeds` | lib/agi/return_status.rb:55-66 | `200 result=0` is not a command error, has result `"0"` and no digit |
| `Status.FailureResultIsNoCommandError` | lib/agi/return_status.rb:79-81 | `200 result=-1` is not a command error, with result `"-1"` |
| `Status.CommandErrorIff` | lib/agi/return_status.rb:79-81 | `command_error?` holds exactly when the line is nil or its first whitespace field is not `200` |
| `Status.NilResponse` | lib/agi/return_status.rb:29-39 | a nil line gives no return code, empty result and message, a command error, no timeout, and `to_s` = chomped command + `" >> "` |
| `Status.NonSuccessCode` | lib/agi/return_status.rb:41-45 | a line whose code is not `200` has that code, an empty result and a command error, whatever follows the code |
| `Status.ResultValueStopsAtEquals` | lib/agi/return_status.rb:44 | only the text between the first and second `=` is kept as the result |
| `Status.TimeoutMarker` | lib/agi/return_status.rb:84-91 | a line containing `(timeout)` anywhere gives `timeout? == true` |
| `Status.TimeoutNeedsMarker` | lib/agi/return_status.rb:84-91 | `timeout?` is true only when `(timeout)` occurs at some index of the line (never for nil) |
| `Status.DigitOfCode` | lib/agi/return_status.rb:60-66 | for `200 result=<n>`, `digit` is nil for 0, the character with code n for 1..255, and a `chr` RangeError otherwise |
| `Status.NoDigitIff` | lib/agi/return_status.rb:60-66 | `digit` is nil exactly when the stored result is `"0"` |
| `Status.ToStringShape` | lib/agi/return_status.rb:50-52 | `to_s` is the chomped command, `" >> "`, then the raw line |
| `Streams.Stdio.Puts` | lib/agi/command.rb:838 | writing appends the line to the output, or fails and changes nothing once the engine hung up |
| `Streams.Stdio.Gets` | lib/agi/command.rb:839 | reading removes and returns the first input line, or nil at end of input |
| `Environment.BlankIffStripEmpty` | lib/agi/asterisk_variable.rb:60-61 | the end-of-block test (empty after `strip!`) holds exactly for lines of whitespace only |
| `Environment.HeaderStops` | lib/agi/asterisk_variable.rb:59-61 | reading stops at the first blank line: the hash is built from the lines before it, the lines after it are not stored, and exactly the block and the blank line are consumed |
| `Environment.HeaderWithoutBlank` | lib/agi/asterisk_variable.rb:59-67 | without a blank line the whole input is the block and is consumed |
| `Environment.ParseKeyValue` | lib/agi/asterisk_variable.rb:60-65 | `key:value` (one colon) is stored under `key` with the stripped value, or nil when the value is only whitespace |
| `Environment.ParseKeyOnly` | lib/agi/asterisk_variable.rb:62-65 | a line with no colon is stored under its text with a nil value |
| `Environment.ParseKeepsSecondPiece` | lib/agi/asterisk_variable.rb:62-63 | `key:value:more` stores only the stripped `value`; `more` is lost |
| `Environment.EmptyKeyDiscarded` | lib/agi/asterisk_variable.rb:64-66 | a line that starts with `:` after stripping is not stored |
| `Environment.CollectKeys` | lib/agi/asterisk_variable.rb:64-66 | a key is in the hash exactly when some stored line carries it |
| `Environment.HeaderLatest` | lib/agi/asterisk_variable.rb:64-66 | a key holds the value of the last header line carrying it: a later duplicate overwrites |
| `Environment.Key` | lib/agi/asterisk_variable.rb:86-196 | every one-variable accessor reads a key of the form `agi_<name>`, never `agi_callerid` or `agi_calleridname`, and `agi_rdnid` is read by `rdnid` alone |
| `Environment.KeyDistinct` | lib/agi/asterisk_variable.rb:86-196 | no two one-variable accessors read the same variable |
| `Environment.AsteriskVariable.constructor` | lib/agi/asterisk_variable.rb:50-52 | `initialize` reads the block at once: the hash is `Header` of the input and the block is consumed |
| `Environment.AsteriskVariable.Env` | lib/agi/asterisk_variable.rb:55-72 | the first call reads the header block and consumes it and the blank line; later calls return the cached hash and read nothing |
| `Environment.AsteriskVariable.ReadEnv` | lib/agi/asterisk_variable.rb:75-84 | `read_env(name)` is `env[name]`, nil for a missing key |
| `Environment.AsteriskVariable.Get` | lib/agi/asterisk_variable.rb:86-196 | each accessor returns `env["agi_<name>"]` without consuming input |
| `Environment.UnknownCaller` | lib/agi/asterisk_variable.rb:203-207 | a stripped caller id of `unknown` makes callerid, name and number all `""` |
| `Environment.DigitsCaller` | lib/agi/asterisk_variable.rb:208-210 | a digits-only caller id is the number, the name is the raw `agi_calleridname` (nil included), and callerid is not rebuilt |
| `Environment.NamedCaller` | lib/agi/asterisk_variable.rb:233-236 | otherwise, with `agi_calleridname` present, the number is the stripped id and callerid becomes `"<name>" <<number>>` |
| `Environment.QuoteMatchSpec` | lib/agi/asterisk_variable.rb:214 | `/".+"/` on a line fails exactly when the line has no two quotes at least two apart; a match is the slice of the line from its first quote to its last |
| `Environment.QuoteMatchBetween` | lib/agi/asterisk_variable.rb:214 | given the first and the last quote of a line, at least two apart, `/".+"/` matches exactly the text from one to the other |
| `Environment.QuotedNameOneLine` | lib/agi/asterisk_variable.rb:214-222 | the name taken from a one-line id is `""` without a quote pair, and otherwise the text from the first to the last quote with all quotes removed and stripped |
| `Environment.DigitGroupUnique` | lib/agi/asterisk_variable.rb:215 | at one position of the id at most one `<digits>` group starts |
| `Environment.BracketedNumberSpec` | lib/agi/asterisk_variable.rb:215 | `/<\d+>/` fails exactly when the id has no `<digits>` group; a match is the digits of a group with no group to its left |
| `Environment.BracketedNumberLeftmost` | lib/agi/asterisk_variable.rb:215 | the digits of the leftmost `<digits>` group are what the match yields, once the brackets are removed |
| `Environment.CompositeCaller` | lib/agi/asterisk_variable.rb:211-232 | without `agi_calleridname` the id is kept, the number is the leftmost `<digits>` group or `""` without one, and on a one-line id the name is the unquoted, stripped text between the outer quotes or `""` |
| `Environment.QuotedCallerRoundTrip` | lib/agi/asterisk_variable.rb:212-232 | without `agi_calleridname`, `"<name>" <<number>>` resolves to the stripped name and the number: the composite-id branch undoes the id the named branch builds |
| `Environment.AsteriskVariable.InitCallerVariable` | lib/agi/asterisk_variable.rb:202-238 | fills the three caller fields with the identity `ResolveCaller` derives from the hash, reading no input |
| `Environment.AsteriskVariable.CallerId` | lib/agi/asterisk_variable.rb:112-118 | `callerid` returns the resolved id, computing it on first use |
| `Environment.AsteriskVariable.CallerIdName` | lib/agi/asterisk_variable.rb:160-166 | `calleridname` returns the resolved name, recomputed while it is nil |
| `Environment.AsteriskVariable.CallerIdNumber` | lib/agi/asterisk_variable.rb:169-175 | `calleridnumber` returns the resolved number |
| `Commands.SanitizeTimeout` | lib/agi/command.rb:866-874 | nil or not positive gives `-1`, otherwise seconds × 1000 (always at least 1000) |
| `Commands.SanitizeTimeoutTwice` | lib/agi/command.rb:866-874 | `-1` is a fixed point; a positive timeout sanitised twice is multiplied by 10⁶ |
| `Commands.SanitizeEscapeDigits` | lib/agi/command.rb:853-863 | nil gives `#`, empty gives `X`, anything else passes unchanged; never empty |
| `Commands.SanitizeEscapeDigitsIdempotent` | lib/agi/command.rb:853-863 | sanitising escape digits twice changes nothing more |
| `Commands.SanitizeFileFormat` | lib/agi/command.rb:877-885 | nil or empty gives `gsm`, anything else passes unchanged |
| `Commands.SanitizeFileFormatIdempotent` | lib/agi/command.rb:877-885 | sanitising a format twice changes nothing more |
| `Commands.SanitizeMaxDigit` | lib/agi/command.rb:888-896 | nil or not positive gives the empty token, otherwise one field that `to_i` reads back as the count |
| `Commands.MusicSwitch` | lib/agi/command.rb:594-600 | `set_music` sends `OFF` exactly for the integer 0, `ON` for every other value including `false` |
| `Commands.TddSwitch` | lib/agi/command.rb:708-714 | `tdd_mode` sends `OFF` exactly for the integer 1, `ON` for every other value including `false` and 0 |
| `Commands.ExchangeIo` | lib/agi/command.rb:833-850 | `exec_command` appends exactly the command to the output and consumes one input line; after a hang-up it raises HangupError and reads nothing |
| `Commands.ExchangeDecodes` | lib/agi/command.rb:833-850 | the status returned is `ReturnStatus.new(cmd, line)` of the line read (nil at end of input), or NoMethodError for a `200` line without a second field |
| `Commands.CommandErrorIff` | lib/agi/command.rb:64-69 | every public command raises CommandError exactly when it passed its argument checks and the decoded status is a command error, and otherwise returns that status |
| `Commands.RejectedSendsNothing` | lib/agi/command.rb:271-275 | a command rejected by an argument check raises ArgumentError with the streams untouched |
| `Commands.SuccessWroteCommand` | lib/agi/command.rb:833-841 | a command that returns wrote its line and consumed one input line |
| `Commands.AnswerSucceeds` | lib/agi/command.rb:64-69 | `answer` on `200 result=0` returns a status with result `"0"` and no digit |
| `Commands.PerformRaw` | lib/agi/command.rb:820-824 | `raw_command` sends its argument as it is, with no argument check |
| `Commands.RawCommandRejected` | lib/agi/command.rb:820-824 | `raw_command` on a `510 …` response raises CommandError carrying `to_s` of the exchange |
| `Commands.ReceiveRejects` | lib/agi/command.rb:271-302 | `receive_char` and `receive_text` raise ArgumentError exactly for a nil, zero or negative timeout |
| `Commands.RecordFileRejects` | lib/agi/command.rb:339-348 | `record_file` raises ArgumentError exactly when the escape digits sanitise to `X` and the timeout to `-1` |
| `Commands.RecordFileWords` | lib/agi/command.rb:350-351 | `RECORD FILE <f> <fmt> <esc> <ms>` with `beep` appended only when `beep == true` |
| `Commands.GetDataWords` | lib/agi/command.rb:175-180 | `GET DATA <file> <ms> [<max>]`: an unlimited count leaves no field |
| `Commands.DialNil` | lib/agi/command.rb:799-809 | `dial` returns nil exactly for a protocol other than LOCAL/IAX2, LOCAL without number or context, IAX2 without number, username or context |
| `Commands.LocalDialFields` | lib/agi/command.rb:799-812 | a LOCAL dial string splits on the bar character into `LOCAL/<num>@<ctx>`, the timeout and the options, empty when nil |
| `Commands.IaxDialFields` | lib/agi/command.rb:802-812 | an IAX2 dial string splits into `IAX2/<user>@<ctx>/<stripped num>`, the timeout and the options |
| `Commands.DialDispatch` | lib/agi/command.rb:796-815 | SIP raises before anything is sent; no dial string returns nil sending nothing; a dial that returns wrote exactly `EXEC DIAL <dial string>` |
| `Commands.ExecDialLine` | lib/agi/command.rb:144-152 | `exec('DIAL', x)` writes `EXEC DIAL x` |
| `Commands.JumpToWrites` | lib/agi/command.rb:902-907 | a `jump_to` that returns wrote exactly the commands for the given arguments, in the order context, extension, priority, and returns nil exactly when the priority is nil |
| `Commands.JumpToNothing` | lib/agi/command.rb:902-907 | `jump_to` with no argument sends nothing and returns nil |
| `Commands.Command.constructor` | lib/agi/command.rb:47-48 | a command object over the given streams |
| `Commands.Command.ExecCommand` | lib/agi/command.rb:833-850 | write, read one line, decode, as `Exchange` specifies |
| `Commands.Command.Run` | lib/agi/command.rb:64-778 | every public command but `dial` and `jump_to`, as `Perform` specifies |
| `Commands.Command.Dial` | lib/agi/command.rb:796-815 | builds the dial string with `+=` and dispatches it, as `DialSpec` specifies |
| `Commands.Command.JumpTo` | lib/agi/command.rb:902-907 | the three guarded dispatches, stopping at the first error, as `JumpToSpec` specifies |

## Left out

- The `AGI` facade in `lib/agi/agi.rb` (one-line delegation and lazily created
  class-level singletons) is not part of this model; the objects here are
  built over an explicit `Stdio` value instead.
- The three-lock `Sync` semaphore only serialises threads; every operation here
  runs as one atomic step, so concurrency is not modelled.
- Debug tracing to `$stderr` is advisory output and is left out.
- Real `$stdin`/`$stdout` and `Errno::EPIPE` are replaced by the `Stdio`
  queue, log and hung-up flag; the engine's hang-up is the `HangUp` method.
- `say_time`'s default argument `Time.now.to_i` reads a clock: the model takes
  the time as a parameter. Timeouts are whole seconds; float timeouts are not modelled.
- Arguments are typed: text arguments are their `to_s`, numeric ones `int`,
  and a nil is `None`. A wrongly typed argument (such as `timeout <= 0` on a
  string) raising NoMethodError is not modelled.
- `sanitize_max_digit` returns an Integer that is only ever interpolated; the
  model returns its decimal text.
- `Commands.Command.Dial`: in the IAX2 branch `strip!` also changes the
  caller's own string object; the model strips a copy, so that aliasing is not captured.
- Ruby's `strip` also removes NUL characters; the model strips the six ASCII
  whitespace characters only.
- Ruby's `to_i` also reads a `0d`/`0D` decimal prefix (`"0d65".to_i` is 65);
  `RubyText.ToI` reads such text as 0.
- Default arguments of the public commands are not modelled: the `Request`
  constructors take every argument, and leaving one out in Ruby is the same as
  passing its default (`record_file`'s `format='gsm'`, `escape_digits='#'`,
  `timeout=nil`, `beep=true`; `dial`'s `context='default'`; `verbose`'s
  `level=3`; `set_music`'s `mode=true`, `moh_class='default'`).
- `CommandError`, `HangupError` and `ArgumentError` (defined in
  `lib/agi/error.rb`, not part of this model) are constructors of `AgiError`
  carrying their message text.
