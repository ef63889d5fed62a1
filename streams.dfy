/**
 * The engine's end of the AGI pipe pair: the lines still to be read from
 * `$stdin`, the lines written so far to `$stdout`, and whether the engine
 * has hung up, after which every write fails with a broken pipe.
 * The three-lock semaphore around each exchange only serialises threads, so
 * it is not modelled: every operation here runs as one step.
 */
module Streams {
  import opened Wrappers

  /** A snapshot of the pipes, used by the pure specifications. */
  datatype IoState = IoState(input: seq<string>, output: seq<string>, hungUp: bool)

  /** `$stdout.puts line`: the line is written, or the write fails with EPIPE once the peer hung up. */
  function Put(s: IoState, line: string): (IoState, bool)
  {
    if s.hungUp then (s, false) else (s.(output := s.output + [line]), true)
  }

  /** `$stdin.gets`: the next line, or nil at end of input. */
  function Get(s: IoState): (Option<string>, IoState)
  {
    if s.input == [] then (None, s) else (Some(s.input[0]), s.(input := s.input[1..]))
  }

  class Stdio {
    var input: seq<string>
    var output: seq<string>
    var hungUp: bool

    function State(): IoState
      reads this
    {
      IoState(input, output, hungUp)
    }

    constructor(input: seq<string>)
      ensures State() == IoState(input, [], false)
    {
      this.input := input;
      this.output := [];
      this.hungUp := false;
    }

    /** The engine closes its end: later writes fail. */
    method HangUp()
      modifies this
      ensures State() == old(State()).(hungUp := true)
    {
      hungUp := true;
    }

    method Puts(line: string) returns (ok: bool)
      modifies this
      ensures (State(), ok) == Put(old(State()), line)
    {
      if hungUp {
        ok := false;
      } else {
        output := output + [line];
        ok := true;
      }
    }

    method Gets() returns (line: Option<string>)
      modifies this
      ensures (line, State()) == Get(old(State()))
    {
      if input == [] {
        line := None;
      } else {
        line := Some(input[0]);
        input := input[1..];
      }
    }
  }
}
