/**
 * The variables the engine sends when the script starts: one `key: value`
 * line each, ended by a blank line. `AsteriskVariable` reads that block once,
 * keeps it in a hash, and derives the caller's name and number from
 * `agi_callerid` and `agi_calleridname`.
 */
module Environment {
  import opened Wrappers
  import opened RubyText
  import opened Streams

  /** The hash `env` fills: a key maps to its value, or to nil when the line had none. */
  type Env = map<string, Option<string>>

  /** A header line that is empty once stripped (`line.strip!; line.size.zero?`) ends the block. */
  predicate IsBlank(line: string) {
    forall i :: 0 <= i < |line| ==> IsSpace(line[i])
  }

  /** The blank test is the strip test of the source. */
  lemma {:induction false} BlankIffStripEmpty(line: string)
    ensures IsBlank(line) <==> Strip(line) == ""
    decreases |line|
  {
    if line != [] && IsSpace(line[|line| - 1]) {
      var init := line[..|line| - 1];
      BlankIffStripEmpty(init);
      assert StripRight(line) == StripRight(init);
      assert IsBlank(line) <==> IsBlank(init) by {
        if IsBlank(init) {
          forall i | 0 <= i < |line| ensures IsSpace(line[i]) {
            if i < |init| { assert line[i] == init[i]; }
          }
        }
        if IsBlank(line) {
          forall i | 0 <= i < |init| ensures IsSpace(init[i]) {
            assert init[i] == line[i];
          }
        }
      }
    } else if line != [] {
      assert StripRight(line) == line;
      StripLeftKeepsLast(line);
    }
  }

  datatype Entry = Entry(key: string, value: Option<string>)

  /**
   * One header line: `key, value = line.strip.split(':')`, the value stripped.
   * None when there is no key or the key is empty, so the line is not stored.
   */
  function ParseLine(line: string): Option<Entry>
  {
    var parts := Split(Strip(line), ':');
    if parts == [] || parts[0] == "" then None
    else Some(Entry(parts[0], if |parts| >= 2 then Some(Strip(parts[1])) else None))
  }

  /** `f` applied to each line, in order. */
  function MapLines<T>(f: string -> T, lines: seq<string>): (r: seq<T>)
    ensures |r| == |lines|
  {
    if lines == [] then []
    else MapLines(f, lines[..|lines| - 1]) + [f(lines[|lines| - 1])]
  }

  /** Line `i` is mapped on its own. */
  lemma {:induction false} MapLinesAt<T>(f: string -> T, lines: seq<string>, i: nat)
    requires i < |lines|
    ensures MapLines(f, lines)[i] == f(lines[i])
  {
    var init := lines[..|lines| - 1];
    if i < |init| {
      assert init[i] == lines[i];
      MapLinesAt(f, init, i);
    }
  }

  /** One more line mapped. */
  lemma MapLinesSnoc<T>(f: string -> T, lines: seq<string>, i: nat)
    requires i < |lines|
    ensures MapLines(f, lines[..i + 1]) == MapLines(f, lines[..i]) + [f(lines[i])]
  {
    assert lines[..i + 1][..i] == lines[..i];
  }

  /** The lines, parsed one by one. */
  function ParseLines(lines: seq<string>): seq<Option<Entry>> {
    MapLines(ParseLine, lines)
  }

  /** `@asterisk_variable[key] = value` for a line with a key; other lines change nothing. */
  function Store(m: Env, e: Option<Entry>): Env {
    match e
    case None => m
    case Some(e) => m[e.key := e.value]
  }

  /** The hash after storing the parsed lines in order. */
  function Collect(es: seq<Option<Entry>>): Env {
    if es == [] then map[] else Store(Collect(es[..|es| - 1]), es[|es| - 1])
  }

  /** How many lines come before the first blank one. */
  function HeaderLength(lines: seq<string>): (n: nat)
    ensures n <= |lines|
    ensures n < |lines| ==> IsBlank(lines[n])
  {
    if lines == [] || IsBlank(lines[0]) then 0 else 1 + HeaderLength(lines[1..])
  }

  /** The hash `env` builds from the input. */
  function Header(lines: seq<string>): Env {
    Collect(ParseLines(lines[..HeaderLength(lines)]))
  }

  /** The lines `env` reads: the header and the blank line that ends it, if there is one. */
  function Consumed(lines: seq<string>): nat {
    if HeaderLength(lines) < |lines| then HeaderLength(lines) + 1 else |lines|
  }

  /** Ruby's `hash[key]`: nil both for a missing key and for a key stored with nil. */
  function Lookup(m: Env, key: string): Option<string> {
    if key in m then m[key] else None
  }

  predicate HasKey(e: Option<Entry>, key: string) {
    e.Some? && e.value.key == key
  }

  // ---------------------------------------------------------------------------
  // properties of the header block

  /** A key is in the hash exactly when some line carries it. */
  lemma {:induction false} CollectKeys(es: seq<Option<Entry>>, key: string)
    ensures key in Collect(es) <==> exists i :: 0 <= i < |es| && HasKey(es[i], key)
  {
    if es != [] {
      var init := es[..|es| - 1];
      CollectKeys(init, key);
      if key in Collect(init) {
        var i :| 0 <= i < |init| && HasKey(init[i], key);
        assert es[i] == init[i];
      }
      if exists i :: 0 <= i < |es| && HasKey(es[i], key) {
        var i :| 0 <= i < |es| && HasKey(es[i], key);
        if i < |init| {
          assert init[i] == es[i];
        }
      }
    }
  }

  /** A later line with the same key overwrites the earlier value: the last one wins. */
  lemma {:induction false} CollectLatest(es: seq<Option<Entry>>, i: nat, key: string)
    requires i < |es| && HasKey(es[i], key)
    requires forall j :: i < j < |es| ==> !HasKey(es[j], key)
    ensures key in Collect(es)
    ensures Collect(es)[key] == es[i].value.value
  {
    var init := es[..|es| - 1];
    if i < |es| - 1 {
      forall j | i < j < |init| ensures !HasKey(init[j], key) {
        assert init[j] == es[j];
      }
      assert init[i] == es[i];
      CollectLatest(init, i, key);
    }
  }

  /** In the hash `env` builds, a key holds the value of the last header line that carries it. */
  lemma HeaderLatest(lines: seq<string>, i: nat, key: string)
    requires i < HeaderLength(lines) && HasKey(ParseLine(lines[i]), key)
    requires forall j :: i < j < HeaderLength(lines) ==> !HasKey(ParseLine(lines[j]), key)
    ensures Lookup(Header(lines), key) == ParseLine(lines[i]).value.value
  {
    var h := lines[..HeaderLength(lines)];
    var es := ParseLines(h);
    MapLinesAt(ParseLine, h, i);
    forall j | i < j < |es| ensures !HasKey(es[j], key) {
      MapLinesAt(ParseLine, h, j);
    }
    CollectLatest(es, i, key);
  }

  /** The block ends at the first blank line: the lines after it are not read into the hash. */
  lemma HeaderStops(pre: seq<string>, blank: string, post: seq<string>)
    requires forall i :: 0 <= i < |pre| ==> !IsBlank(pre[i])
    requires IsBlank(blank)
    ensures HeaderLength(pre + [blank] + post) == |pre|
    ensures Header(pre + [blank] + post) == Collect(ParseLines(pre))
    ensures Consumed(pre + [blank] + post) == |pre| + 1
  {
    HeaderStopsAt(pre, blank, post);
    assert (pre + [blank] + post)[..|pre|] == pre;
  }

  lemma {:induction false} HeaderStopsAt(pre: seq<string>, blank: string, post: seq<string>)
    requires forall i :: 0 <= i < |pre| ==> !IsBlank(pre[i])
    requires IsBlank(blank)
    ensures HeaderLength(pre + [blank] + post) == |pre|
  {
    var s := pre + [blank] + post;
    if pre == [] {
      assert s[0] == blank;
    } else {
      assert s[0] == pre[0];
      assert s[1..] == pre[1..] + [blank] + post;
      forall i | 0 <= i < |pre[1..]| ensures !IsBlank(pre[1..][i]) {
        assert pre[1..][i] == pre[i + 1];
      }
      HeaderStopsAt(pre[1..], blank, post);
    }
  }

  /** Without a blank line the whole input is the block. */
  lemma HeaderWithoutBlank(lines: seq<string>)
    requires forall i :: 0 <= i < |lines| ==> !IsBlank(lines[i])
    ensures HeaderLength(lines) == |lines| && Header(lines) == Collect(ParseLines(lines))
    ensures Consumed(lines) == |lines|
  {
    HeaderLengthWithoutBlank(lines);
    assert lines[..|lines|] == lines;
  }

  lemma {:induction false} HeaderLengthWithoutBlank(lines: seq<string>)
    requires forall i :: 0 <= i < |lines| ==> !IsBlank(lines[i])
    ensures HeaderLength(lines) == |lines|
  {
    if lines != [] {
      forall i | 0 <= i < |lines[1..]| ensures !IsBlank(lines[1..][i]) {
        assert lines[1..][i] == lines[i + 1];
      }
      assert !IsBlank(lines[0]);
      HeaderLengthWithoutBlank(lines[1..]);
    }
  }

  /** Stripping `key:value` with a key that starts with a non-space only touches the end of the value. */
  lemma StripKeyValue(key: string, value: string)
    requires IsField(key)
    ensures Strip(key + ":" + value) == key + [':'] + StripRight(value)
  {
    var a := key + ":";
    StripRightAfter(a, value);
    assert key + ":" + value == a + value;
    var stripped := a + StripRight(value);
    assert stripped[0] == key[0];
    StripLeftUnchanged(stripped);
  }

  /** `split(':')` of `key:value` with no further colon: the key, then the value unless it is empty. */
  lemma SplitKeyValue(key: string, value: string)
    requires key != "" && ':' !in key && ':' !in value
    ensures Split(key + [':'] + value, ':') == if value == "" then [key] else [key, value]
  {
    PiecesCons(key, ':', value);
    var ps := [key, value];
    assert Pieces(key + [':'] + value, ':') == ps;
    if value == "" {
      assert ps[..|ps| - 1] == [key];
      assert DropTrailingEmpty(ps) == DropTrailingEmpty([key]);
      assert DropTrailingEmpty([key]) == [key];
    }
  }

  /** `strip` of the right-stripped text is `strip` of the text, and both are empty together. */
  lemma StripAfterStripRight(value: string)
    ensures Strip(StripRight(value)) == Strip(value)
    ensures StripRight(value) == "" <==> Strip(value) == ""
  {
    var vr := StripRight(value);
    assert StripRight(vr) == vr;
    if vr != [] {
      StripLeftKeepsLast(vr);
    }
  }

  /**
   * `key: value` is stored under the key with the stripped value; with
   * nothing but whitespace after the colon, the value is nil.
   */
  lemma ParseKeyValue(key: string, value: string)
    requires IsField(key) && ':' !in key && ':' !in value
    ensures ParseLine(key + ":" + value)
         == Some(Entry(key, if Strip(value) == "" then None else Some(Strip(value))))
  {
    var vr := StripRight(value);
    StripKeyValue(key, value);
    StripKeepsOut(value, ':');
    SplitKeyValue(key, vr);
    StripAfterStripRight(value);
  }

  /** A line with a key and no colon is stored with a nil value. */
  lemma ParseKeyOnly(key: string)
    requires IsField(key) && ':' !in key
    ensures ParseLine(key) == Some(Entry(key, None))
  {
    StripUnchanged(key);
    SplitFields(key, ':');
  }

  /**
   * The line is split on every colon and only the second piece is kept:
   * `key:value:more` stores the stripped `value`, and `more` is lost.
   */
  lemma ParseKeepsSecondPiece(key: string, value: string, rest: string)
    requires IsField(key) && ':' !in key && ':' !in value && value != ""
    ensures ParseLine(key + ":" + value + ":" + rest) == Some(Entry(key, Some(Strip(value))))
  {
    StripTwoColons(key, value, rest);
    SplitTwoColons(key, value, StripRight(rest));
  }

  lemma {:induction false} StripTwoColons(key: string, value: string, rest: string)
    requires IsField(key)
    ensures Strip(key + ":" + value + ":" + rest) == key + [':'] + (value + [':'] + StripRight(rest))
  {
    var t := value + [':'] + rest;
    assert key + ":" + value + ":" + rest == key + ":" + t;
    StripKeyValue(key, t);
    var v := value + [':'];
    assert v[|v| - 1] == ':';
    StripRightAfter(v, rest);
  }

  lemma SplitTwoColons(key: string, value: string, rest: string)
    requires key != "" && ':' !in key && ':' !in value && value != ""
    ensures var parts := Split(key + [':'] + (value + [':'] + rest), ':');
      |parts| >= 2 && parts[0] == key && parts[1] == value
  {
    PiecesCons(key, ':', value + [':'] + rest);
    PiecesCons(value, ':', rest);
    var ps := Pieces(key + [':'] + (value + [':'] + rest), ':');
    assert ps[0] == key && ps[1] == value;
    DropTrailingEmptyShape(ps);
  }

  /** A line whose stripped text starts with a colon has an empty key and is discarded. */
  lemma EmptyKeyDiscarded(line: string)
    requires Strip(line) != [] && Strip(line)[0] == ':'
    ensures ParseLine(line).None?
  {
    var t := Strip(line);
    PiecesCons([], ':', t[1..]);
    assert [] + [':'] + t[1..] == t;
    DropTrailingEmptyShape(Pieces(t, ':'));
  }

  // ---------------------------------------------------------------------------
  // the caller identity

  /** `/^\d+\d$/` on the stripped caller id: some line of it is two or more ASCII digits. */
  predicate DigitLine(id: string) {
    exists p :: p in Pieces(id, '\n') && |p| >= 2 && AllDigits(p)
  }

  /** What `/".+"/` matches in one line: its first double quote to its last, with at least one character between. */
  function QuoteMatchInLine(line: string): (r: Option<string>)
    ensures r.Some? ==> |r.value| >= 3 && r.value[0] == '"' && r.value[|r.value| - 1] == '"'
  {
    if '"' in line then
      var q := IndexOf(line, '"');
      var l := LastIndexOf(line, '"');
      if l >= q + 2 then Some(line[q..l + 1]) else None
    else None
  }

  /** `/".+"/`: `.` does not cross a newline, so the first line that holds a match gives it. */
  function QuotedText(lines: seq<string>): Option<string> {
    if lines == [] then None
    else if QuoteMatchInLine(lines[0]).Some? then QuoteMatchInLine(lines[0])
    else QuotedText(lines[1..])
  }

  /** The name `init_caller_variable` takes from the caller id: the quoted text, quotes removed, stripped. */
  function QuotedName(id: string): string {
    match QuotedText(Pieces(id, '\n'))
    case None => ""
    case Some(m) => Strip(RemoveAll(m, '"'))
  }

  /** The digits of the first `<digits>` group, what `/<\d+>/` matches with its brackets removed. */
  function BracketedNumber(s: string): (r: Option<string>)
    ensures r.Some? ==> r.value != [] && AllDigits(r.value)
    decreases |s|
  {
    if s == [] then None
    else
      var d := PlainDigits(s[1..]);
      if s[0] == '<' && d != [] && 1 + |d| < |s| && s[1 + |d|] == '>' then Some(d)
      else BracketedNumber(s[1..])
  }

  /** The caller id `init_caller_variable` builds when the engine sends a name: `"<name>" <<number>>`. */
  function Quoted(name: string, number: string): string {
    "\"" + name + "\" <" + number + ">"
  }

  datatype CallerIdentity = CallerIdentity(callerid: string, calleridname: Option<string>, calleridnumber: string)

  /** The four branches of `init_caller_variable`, from the raw `agi_callerid` and `agi_calleridname`. */
  function ResolveCaller(rawId: Option<string>, rawName: Option<string>): CallerIdentity {
    var id := Strip(rawId.GetOr(""));
    if id == "unknown" then CallerIdentity("", Some(""), "")
    else if DigitLine(id) then CallerIdentity(id, rawName, id)
    else if rawName.None? then CallerIdentity(id, Some(QuotedName(id)), BracketedNumber(id).GetOr(""))
    else CallerIdentity(Quoted(rawName.value, id), rawName, id)
  }

  // ---------------------------------------------------------------------------
  // properties of the caller identity

  /** `unknown` (the engine's default) clears all three. */
  lemma UnknownCaller(rawId: string, rawName: Option<string>)
    requires Strip(rawId) == "unknown"
    ensures ResolveCaller(Some(rawId), rawName) == CallerIdentity("", Some(""), "")
  {
  }

  /** A single line of two or more digits matches `/^\d+\d$/`. */
  lemma DigitLineOf(digits: string)
    requires |digits| >= 2 && AllDigits(digits)
    ensures DigitLine(digits)
  {
    assert Pieces(digits, '\n') == [digits];
    assert digits in Pieces(digits, '\n');
  }

  /** A caller id of digits is the number; the id is not rebuilt and the name is the raw variable, nil included. */
  lemma DigitsCaller(digits: string, rawName: Option<string>)
    requires |digits| >= 2 && AllDigits(digits)
    ensures ResolveCaller(Some(digits), rawName) == CallerIdentity(digits, rawName, digits)
  {
    assert IsDigit(digits[0]) && IsDigit(digits[|digits| - 1]);
    StripUnchanged(digits);
    assert digits != "unknown" by { assert digits[0] != 'u'; }
    DigitLineOf(digits);
  }

  /** With a name variable present, the id becomes the number and is rebuilt around the name. */
  lemma NamedCaller(rawId: string, name: string)
    requires Strip(rawId) != "unknown" && !DigitLine(Strip(rawId))
    ensures ResolveCaller(Some(rawId), Some(name))
         == CallerIdentity(Quoted(name, Strip(rawId)), Some(name), Strip(rawId))
  {
  }

  lemma QuotedShape(name: string, number: string)
    requires '"' !in name && '\n' !in name && '<' !in name
    requires number != [] && AllDigits(number)
    ensures var id := Quoted(name, number);
      && id == "\"" + name + "\" " + ("<" + number + ">")
      && Strip(id) == id && id != "unknown"
      && '\n' !in id && '<' !in "\"" + name + "\" "
      && '"' !in " <" + number + ">"
  {
    var id := Quoted(name, number);
    assert id[0] == '"' && id[|id| - 1] == '>';
    StripUnchanged(id);
    assert '\n' !in number && '"' !in number by {
      forall j | 0 <= j < |number| ensures number[j] != '\n' && number[j] != '"' {
        assert IsDigit(number[j]);
      }
    }
  }

  /** In `"<name>"<rest>`, with no quote in the name or the rest, `/".+"/` matches the quoted name when it is not empty. */
  lemma QuoteMatchOf(name: string, rest: string)
    requires '"' !in name && '"' !in rest
    ensures QuoteMatchInLine("\"" + name + "\"" + rest)
         == if name == [] then None else Some("\"" + name + "\"")
  {
    var line := "\"" + name + "\"" + rest;
    var open := "\"" + name;
    assert line == open + ['"'] + rest;
    LastIndexOfBefore(open, '"', rest);
    assert line[0] == '"';
    assert IndexOf(line, '"') == 0;
    assert line[0..|name| + 2] == "\"" + name + "\"";
  }

  /** Removing the quotes around a name without quotes gives the name. */
  lemma UnquoteName(name: string)
    requires '"' !in name
    ensures RemoveAll("\"" + name + "\"", '"') == name
  {
    var m := "\"" + name + "\"";
    assert m[0] == '"' && m[1..] == name + ['"'];
    RemoveAllAfter(name, '"');
  }

  /** `"<name>" <<number>>` is one line, so `/".+"/` looks only at it. */
  lemma QuotedOneLine(name: string, number: string)
    requires '\n' !in name && AllDigits(number)
    ensures Pieces(Quoted(name, number), '\n') == [Quoted(name, number)]
  {
    assert '\n' !in number by {
      forall j | 0 <= j < |number| ensures number[j] != '\n' {
        assert IsDigit(number[j]);
      }
    }
  }

  /** The quoted part of `"<name>" <<number>>` is the name, stripped. */
  lemma QuotedNameOf(name: string, number: string)
    requires '"' !in name && '\n' !in name
    requires AllDigits(number)
    ensures QuotedName(Quoted(name, number)) == Strip(name)
  {
    var id := Quoted(name, number);
    QuotedOneLine(name, number);
    var rest := " <" + number + ">";
    assert '"' !in rest by {
      forall j | 0 <= j < |number| ensures number[j] != '"' {
        assert IsDigit(number[j]);
      }
    }
    assert id == "\"" + name + "\"" + rest;
    QuoteMatchOf(name, rest);
    assert QuotedText([id]) == QuoteMatchInLine(id);
    if name != [] {
      UnquoteName(name);
    }
  }

  lemma {:induction false} RemoveAllAfter(s: string, c: char)
    requires c !in s
    ensures RemoveAll(s + [c], c) == s
  {
    if s == [] {
      assert [] + [c] == [c];
    } else {
      var t := s + [c];
      assert t[0] == s[0] && t[1..] == s[1..] + [c];
      RemoveAllAfter(s[1..], c);
      assert [s[0]] + s[1..] == s;
    }
  }

  /** `/<\d+>/` skips text that holds no `<`. */
  lemma {:induction false} BracketedNumberSkip(a: string, b: string)
    requires '<' !in a
    ensures BracketedNumber(a + b) == BracketedNumber(b)
  {
    if a != [] {
      assert (a + b)[0] == a[0];
      assert (a + b)[1..] == a[1..] + b;
      BracketedNumberSkip(a[1..], b);
    } else {
      assert a + b == b;
    }
  }

  lemma BracketedNumberOf(number: string)
    requires number != [] && AllDigits(number)
    ensures BracketedNumber("<" + number + ">") == Some(number)
  {
    var s := "<" + number + ">";
    assert s[1..] == number + ">";
    PlainDigitsOf(number, ">");
  }

  /**
   * An engine without `agi_calleridname` sends the id as `"<name>" <<number>>`;
   * the resolver recovers the stripped name and the number from it, so it
   * undoes the id that the other branch builds.
   */
  lemma QuotedCallerRoundTrip(name: string, number: string)
    requires '"' !in name && '\n' !in name && '<' !in name
    requires number != [] && AllDigits(number)
    ensures ResolveCaller(Some(Quoted(name, number)), None)
         == CallerIdentity(Quoted(name, number), Some(Strip(name)), number)
  {
    var id := Quoted(name, number);
    QuotedShape(name, number);
    assert Pieces(id, '\n') == [id];
    assert !DigitLine(id) by {
      assert !IsDigit(id[0]);
    }
    QuotedNameOf(name, number);
    BracketedNumberSkip("\"" + name + "\" ", "<" + number + ">");
    BracketedNumberOf(number);
  }

  // ---------------------------------------------------------------------------
  // what the two regular expressions match

  /** The line holds two double quotes with at least one character between them: what `/".+"/` needs. */
  predicate HasQuotePair(line: string) {
    exists i, j :: 0 <= i && i + 2 <= j < |line| && line[i] == '"' && line[j] == '"'
  }

  /**
   * `/".+"/` on one line: no match exactly when there is no such pair; a
   * match is the slice of the line from its first quote to its last (`.+`
   * is greedy), with no quote before or after it.
   */
  lemma {:induction false} QuoteMatchSpec(line: string)
    ensures QuoteMatchInLine(line).None? <==> !HasQuotePair(line)
    ensures QuoteMatchInLine(line).Some? ==>
      var m := QuoteMatchInLine(line).value;
      exists i :: 0 <= i && i + |m| <= |line| && m == line[i..i + |m|] && '"' !in line[..i] && '"' !in line[i + |m|..]
  {
    if '"' in line {
      var q := IndexOf(line, '"');
      var l := LastIndexOf(line, '"');
      forall i, j | 0 <= i < j < |line| && line[i] == '"' && line[j] == '"'
        ensures q <= i && j <= l
      {
        IndexOfLeast(line, '"', i);
        LastIndexOfGreatest(line, '"', j);
      }
      if l >= q + 2 {
        assert line[q] == '"' && line[l] == '"';
        var m := line[q..l + 1];
        assert m == line[q..q + |m|];
        assert line[q + |m|..] == line[l + 1..];
      }
    }
  }

  /** `line[i]` and `line[j]` are its first and its last double quote, at least two apart. */
  predicate OuterQuotes(line: string, i: nat, j: nat) {
    i + 2 <= j < |line| && line[i] == '"' && line[j] == '"' && '"' !in line[..i] && '"' !in line[j + 1..]
  }

  /** Between the first and the last quote of a line that has a pair, `/".+"/` matches. */
  lemma {:induction false} QuoteMatchBetween(line: string, i: nat, j: nat)
    requires OuterQuotes(line, i, j)
    ensures QuoteMatchInLine(line) == Some(line[i..j + 1])
  {
    assert line[i] in line;
    var q := IndexOf(line, '"');
    var l := LastIndexOf(line, '"');
    IndexOfLeast(line, '"', i);
    LastIndexOfGreatest(line, '"', j);
  }

  /** The name of a one-line composite id: the text from its first to its last quote, unquoted and stripped, or "". */
  lemma {:induction false} QuotedNameOneLine(id: string)
    requires '\n' !in id
    ensures !HasQuotePair(id) ==> QuotedName(id) == ""
    ensures forall i: nat, j: nat :: OuterQuotes(id, i, j) ==> QuotedName(id) == Strip(RemoveAll(id[i..j + 1], '"'))
  {
    assert Pieces(id, '\n') == [id];
    assert QuotedText([id]) == QuoteMatchInLine(id);
    QuoteMatchSpec(id);
    forall i: nat, j: nat | OuterQuotes(id, i, j)
      ensures QuotedName(id) == Strip(RemoveAll(id[i..j + 1], '"'))
    {
      QuoteMatchBetween(id, i, j);
    }
  }

  /** `<d>` at index `k` of `s`, with `d` a non-empty run of ASCII digits: one match of `/<\d+>/`. */
  predicate DigitGroupAt(s: string, k: nat, d: string) {
    d != [] && AllDigits(d) && k + |d| + 2 <= |s| && s[k..k + |d| + 2] == "<" + d + ">"
  }

  /** A group at the start of `s` is the run of digits after the `<`. */
  lemma {:induction false} DigitGroupAtStart(s: string, d: string)
    requires DigitGroupAt(s, 0, d)
    ensures s[0] == '<' && PlainDigits(s[1..]) == d && 1 + |d| < |s| && s[1 + |d|] == '>'
  {
    var g := s[0..|d| + 2];
    assert g == "<" + d + ">";
    assert s[0] == g[0] && s[1 + |d|] == g[1 + |d|];
    assert s[1..] == d + s[1 + |d|..] by {
      assert s[1..1 + |d|] == g[1..1 + |d|] == d;
    }
    PlainDigitsOf(d, s[1 + |d|..]);
  }

  /** Groups of `s[1..]` are the groups of `s`, one index later. */
  lemma {:induction false} DigitGroupShift(s: string, k: nat, d: string)
    requires s != []
    ensures DigitGroupAt(s, k + 1, d) <==> DigitGroupAt(s[1..], k, d)
  {
    if k + |d| + 2 <= |s| - 1 {
      var a := s[k + 1..k + 1 + |d| + 2];
      var b := s[1..][k..k + |d| + 2];
      assert |a| == |b|;
      forall i | 0 <= i < |a| ensures a[i] == b[i] {
        assert a[i] == s[k + 1 + i];
        assert b[i] == s[1..][k + i] == s[k + 1 + i];
      }
      assert a == b;
    }
  }

  /** `s` holds at least one group. */
  ghost predicate HasDigitGroup(s: string) {
    exists k: nat, d :: DigitGroupAt(s, k, d)
  }

  /** The group `<d>` at `k` is the leftmost group of `s`. */
  ghost predicate LeftmostGroup(s: string, k: nat, d: string) {
    DigitGroupAt(s, k, d) && forall k': nat, d' :: k' < k ==> !DigitGroupAt(s, k', d')
  }

  /** At one index there is at most one group. */
  lemma {:induction false} DigitGroupUnique(s: string, k: nat, d1: string, d2: string)
    requires DigitGroupAt(s, k, d1) && DigitGroupAt(s, k, d2)
    ensures d1 == d2
  {
    var t := s[k..];
    assert DigitGroupAt(t, 0, d1) by { assert t[0..|d1| + 2] == s[k..k + |d1| + 2]; }
    assert DigitGroupAt(t, 0, d2) by { assert t[0..|d2| + 2] == s[k..k + |d2| + 2]; }
    DigitGroupAtStart(t, d1);
    DigitGroupAtStart(t, d2);
  }

  /** A group at the start of `s` is what `BracketedNumber` takes first. */
  lemma {:induction false} NoGroupAtStart(s: string)
    requires s != []
    requires !(s[0] == '<' && PlainDigits(s[1..]) != [] && 1 + |PlainDigits(s[1..])| < |s| && s[1 + |PlainDigits(s[1..])|] == '>')
    ensures forall d :: !DigitGroupAt(s, 0, d)
  {
    forall d | DigitGroupAt(s, 0, d) ensures false {
      DigitGroupAtStart(s, d);
    }
  }

  /**
   * `/<\d+>/` with its brackets removed: some number exactly when `s` holds a
   * `<digits>` group, and then the digits of the leftmost one.
   */
  lemma {:induction false} BracketedNumberSpec(s: string)
    ensures BracketedNumber(s).None? <==> !HasDigitGroup(s)
    ensures BracketedNumber(s).Some? ==> exists k: nat :: LeftmostGroup(s, k, BracketedNumber(s).value)
    decreases |s|
  {
    if s == [] {
      return;
    }
    var d := PlainDigits(s[1..]);
    if s[0] == '<' && d != [] && 1 + |d| < |s| && s[1 + |d|] == '>' {
      assert s[1..1 + |d|] == d;
      assert s[0..|d| + 2] == "<" + d + ">";
      assert DigitGroupAt(s, 0, d);
      assert LeftmostGroup(s, 0, d);
    } else {
      NoGroupAtStart(s);
      BracketedNumberSpec(s[1..]);
      var r := BracketedNumber(s[1..]);
      assert BracketedNumber(s) == r;
      if r.None? {
        forall k: nat, d' ensures !DigitGroupAt(s, k, d') {
          if k > 0 { DigitGroupShift(s, k - 1, d'); }
        }
      } else {
        var k: nat :| LeftmostGroup(s[1..], k, r.value);
        DigitGroupShift(s, k, r.value);
        forall k': nat, d' | k' < k + 1 ensures !DigitGroupAt(s, k', d') {
          if k' > 0 { DigitGroupShift(s, k' - 1, d'); }
        }
        assert LeftmostGroup(s, k + 1, r.value);
      }
    }
  }

  /** The leftmost group of `s`, whichever it is, is the one `BracketedNumber` returns. */
  lemma {:induction false} BracketedNumberLeftmost(s: string)
    ensures forall k: nat, d :: LeftmostGroup(s, k, d) ==> BracketedNumber(s) == Some(d)
  {
    BracketedNumberSpec(s);
    forall k: nat, d | LeftmostGroup(s, k, d) ensures BracketedNumber(s) == Some(d) {
      var v := BracketedNumber(s).value;
      var k0: nat :| LeftmostGroup(s, k0, v);
      assert !(k0 < k) && !(k < k0);
      DigitGroupUnique(s, k, d, v);
    }
  }

  /**
   * The composite-id branch (no `agi_calleridname`): the id is kept; the number
   * is the digits of the leftmost `<digits>` group, or "" without one; on a
   * one-line id the name is the text from the first to the last double quote
   * with every quote removed and stripped, or "" without two such quotes.
   */
  lemma {:induction false} CompositeCaller(rawId: string)
    requires Strip(rawId) != "unknown" && !DigitLine(Strip(rawId))
    ensures var id, r := Strip(rawId), ResolveCaller(Some(rawId), None);
      && r.callerid == id
      && ('\n' !in id && !HasQuotePair(id) ==> r.calleridname == Some(""))
      && ('\n' !in id ==> forall i: nat, j: nat :: OuterQuotes(id, i, j) ==> r.calleridname == Some(Strip(RemoveAll(id[i..j + 1], '"'))))
      && (!HasDigitGroup(id) ==> r.calleridnumber == "")
      && (forall k: nat, d :: LeftmostGroup(id, k, d) ==> r.calleridnumber == d)
  {
    var id := Strip(rawId);
    assert ResolveCaller(Some(rawId), None)
        == CallerIdentity(id, Some(QuotedName(id)), BracketedNumber(id).GetOr(""));
    if '\n' !in id {
      QuotedNameOneLine(id);
    }
    BracketedNumberSpec(id);
    BracketedNumberLeftmost(id);
  }

  // ---------------------------------------------------------------------------
  // the object

  /** The one-variable accessors, `request` to `callingtns`. */
  datatype Variable =
    | Request | Channel | Language | Type | UniqueId | Dnid | Rdnid | Context
    | Extension | Priority | Enhanced | AccountCode
    | CallingPres | CallingAni2 | CallingTon | CallingTns

  /** The key each accessor reads; `rdnid` reads `agi_rdnid`. */
  function Key(v: Variable): (k: string)
    ensures "agi_" <= k
    ensures k != "agi_callerid" && k != "agi_calleridname"
    ensures v == Rdnid <==> k == "agi_rdnid"
  {
    match v
    case Request => "agi_request"
    case Channel => "agi_channel"
    case Language => "agi_language"
    case Type => "agi_type"
    case UniqueId => "agi_uniqueid"
    case Dnid => "agi_dnid"
    case Rdnid => "agi_rdnid"
    case Context => "agi_context"
    case Extension => "agi_extension"
    case Priority => "agi_priority"
    case Enhanced => "agi_enhanced"
    case AccountCode => "agi_accountcode"
    case CallingPres => "agi_callingpres"
    case CallingAni2 => "agi_callingani2"
    case CallingTon => "agi_callington"
    case CallingTns => "agi_callingtns"
  }

  /** Each accessor reads a variable of its own: no two accessors share a key. */
  lemma KeyDistinct(a: Variable, b: Variable)
    ensures Key(a) == Key(b) <==> a == b
  {
  }

  /** What `env` leaves behind: the cached hash untouched, or the header read and consumed from the input. */
  function Loaded(table: Option<Env>, s: IoState): (Env, IoState) {
    if table.Some? then (table.value, s)
    else (Header(s.input), s.(input := s.input[Consumed(s.input)..]))
  }

  /** A blank line at or before the end of the block is the line that ends it. */
  lemma {:induction false} FirstBlank(lines: seq<string>, k: nat)
    requires k <= HeaderLength(lines) && k < |lines| && IsBlank(lines[k])
    ensures HeaderLength(lines) == k
  {
    if k > 0 {
      assert lines[1..][k - 1] == lines[k];
      FirstBlank(lines[1..], k - 1);
    }
  }

  lemma CollectSnoc(es: seq<Option<Entry>>, e: Option<Entry>)
    ensures Collect(es + [e]) == Store(Collect(es), e)
  {
    assert (es + [e])[..|es|] == es;
  }

  /** One more header line stored. */
  lemma CollectStep(lines: seq<string>, i: nat)
    requires i < |lines|
    ensures Collect(ParseLines(lines[..i + 1])) == Store(Collect(ParseLines(lines[..i])), ParseLine(lines[i]))
  {
    MapLinesSnoc(ParseLine, lines, i);
    CollectSnoc(ParseLines(lines[..i]), ParseLine(lines[i]));
  }

  /** A line inside the block: the block goes on past it, and it is stored. */
  lemma HeaderStep(lines: seq<string>, i: nat)
    requires i <= HeaderLength(lines) && i < |lines| && !IsBlank(lines[i])
    ensures i + 1 <= HeaderLength(lines)
    ensures Collect(ParseLines(lines[..i + 1])) == Store(Collect(ParseLines(lines[..i])), ParseLine(lines[i]))
  {
    CollectStep(lines, i);
  }

  /** The input ran out inside the block: everything was read. */
  lemma HeaderAtEnd(lines: seq<string>, i: nat)
    requires i <= HeaderLength(lines) && lines[i..] == []
    ensures Collect(ParseLines(lines[..i])) == Header(lines)
    ensures lines[Consumed(lines)..] == lines[i..]
  {
    assert i == |lines|;
    assert HeaderLength(lines) == i;
  }

  /** The block ends at the blank line `lines[i]`, which is read as well. */
  lemma HeaderAtBlank(lines: seq<string>, i: nat)
    requires i <= HeaderLength(lines) && i < |lines| && IsBlank(lines[i])
    ensures Collect(ParseLines(lines[..i])) == Header(lines)
    ensures lines[Consumed(lines)..] == lines[i + 1..]
  {
    FirstBlank(lines, i);
  }

  class AsteriskVariable {
    const io: Stdio
    var table: Option<Env>
    var callerid: Option<string>
    var calleridname: Option<string>
    var calleridnumber: Option<string>

    /** The identity `init_caller_variable` derives from the stored variables. */
    function Resolved(): CallerIdentity
      reads this
      requires table.Some?
    {
      ResolveCaller(Lookup(table.value, "agi_callerid"), Lookup(table.value, "agi_calleridname"))
    }

    /** The hash has been read, and the caller fields are either all unset or hold the derived identity. */
    predicate Valid()
      reads this
    {
      && table.Some?
      && (callerid.None? ==> calleridname.None? && calleridnumber.None?)
      && (callerid.Some? ==>
            && callerid == Some(Resolved().callerid)
            && calleridname == Resolved().calleridname
            && calleridnumber == Some(Resolved().calleridnumber))
    }

    /** `initialize` reads the header block at once. */
    constructor(io: Stdio)
      modifies io
      ensures this.io == io && Valid() && callerid.None?
      ensures (table.value, io.State()) == Loaded(None, old(io.State()))
    {
      this.io := io;
      table := None;
      callerid := None;
      calleridname := None;
      calleridnumber := None;
      new;
      var _ := Env();
    }

    /**
     * `env`: on the first call, read lines up to and including the first blank
     * one (or to the end of the input) and store each `key: value`; later calls
     * return the same hash and read nothing.
     */
    method Env() returns (m: Env)
      modifies this, io
      ensures table == Some(m)
      ensures (m, io.State()) == Loaded(old(table), old(io.State()))
      ensures callerid == old(callerid) && calleridname == old(calleridname) && calleridnumber == old(calleridnumber)
    {
      if table.Some? {
        return table.value;
      }
      table := Some(map[]);
      ghost var lines := io.input;
      ghost var i := 0;
      while true
        invariant i <= HeaderLength(lines) && io.input == lines[i..]
        invariant io.output == old(io.output) && io.hungUp == old(io.hungUp)
        invariant table == Some(Collect(ParseLines(lines[..i])))
        invariant callerid == old(callerid) && calleridname == old(calleridname) && calleridnumber == old(calleridnumber)
        decreases |io.input|
      {
        var line := io.Gets();
        if line.None? {
          HeaderAtEnd(lines, i);
          break;
        }
        if IsBlank(line.value) {
          HeaderAtBlank(lines, i);
          i := i + 1;
          break;
        }
        HeaderStep(lines, i);
        table := Some(Store(table.value, ParseLine(line.value)));
        i := i + 1;
      }
      m := table.value;
    }

    /** `read_env(name)`: `env[name]`, nil for a missing key. */
    method ReadEnv(name: string) returns (v: Option<string>)
      modifies this, io
      ensures table.Some? && v == Lookup(table.value, name)
      ensures (table.value, io.State()) == Loaded(old(table), old(io.State()))
      ensures callerid == old(callerid) && calleridname == old(calleridname) && calleridnumber == old(calleridnumber)
    {
      var m := Env();
      v := if name in m then m[name] else None;
    }

    /** `request`, `channel`, …: the variable's value, nil when the engine did not send it. */
    method Get(v: Variable) returns (r: Option<string>)
      requires Valid()
      modifies this, io
      ensures Valid() && table == old(table) && io.State() == old(io.State())
      ensures callerid == old(callerid) && calleridname == old(calleridname) && calleridnumber == old(calleridnumber)
      ensures r == Lookup(table.value, Key(v))
    {
      r := ReadEnv(Key(v));
    }

    /** `init_caller_variable`: the four branches, filling the three caller fields. */
    method InitCallerVariable()
      requires Valid()
      modifies this, io
      ensures Valid() && callerid.Some? && table == old(table) && io.State() == old(io.State())
    {
      var raw := ReadEnv("agi_callerid");
      var id := Strip(raw.GetOr(""));
      callerid := Some(id);
      if id == "unknown" {
        callerid := Some("");
        calleridname := Some("");
        calleridnumber := Some("");
      } else if DigitLine(id) {
        calleridname := ReadEnv("agi_calleridname");
        calleridnumber := Some(id);
      } else {
        calleridname := ReadEnv("agi_calleridname");
        if calleridname.None? {
          calleridname := Some(QuotedName(id));
          calleridnumber := Some(BracketedNumber(id).GetOr(""));
        } else {
          calleridnumber := Some(id);
          callerid := Some(Quoted(calleridname.value, id));
        }
      }
    }

    /** `callerid`, computed on first use. */
    method CallerId() returns (r: string)
      requires Valid()
      modifies this, io
      ensures Valid() && table == old(table) && io.State() == old(io.State())
      ensures r == Resolved().callerid
    {
      if callerid.None? {
        InitCallerVariable();
      }
      r := callerid.value;
    }

    /** `calleridname`, recomputed while it is nil; nil only when the id is digits and the engine sent no name. */
    method CallerIdName() returns (r: Option<string>)
      requires Valid()
      modifies this, io
      ensures Valid() && table == old(table) && io.State() == old(io.State())
      ensures r == Resolved().calleridname
    {
      if calleridname.None? {
        InitCallerVariable();
      }
      r := calleridname;
    }

    /** `calleridnumber`, computed on first use. */
    method CallerIdNumber() returns (r: string)
      requires Valid()
      modifies this, io
      ensures Valid() && table == old(table) && io.State() == old(io.State())
      ensures r == Resolved().calleridnumber
    {
      if calleridnumber.None? {
        InitCallerVariable();
      }
      r := calleridnumber.value;
    }
  }
}
