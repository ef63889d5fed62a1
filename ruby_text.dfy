/**
 * The Ruby String and Integer primitives the AGI client is built from, with
 * the edge cases the client relies on: `strip`, `chomp`, `split(' ')`, `split(':')`,
 * a literal regular-expression search, `String#to_i` and `Integer#to_s`.
 */
module RubyText {

  /** Ruby's whitespace for `strip` and `split(' ')`: space, \t, \n, \v, \f and \r. */
  predicate IsSpace(c: char) {
    c == ' ' || c == '\t' || c == '\n' || c == '\U{B}' || c == '\U{C}' || c == '\r'
  }

  predicate IsDigit(c: char) {
    '0' <= c <= '9'
  }

  predicate NoSpace(s: string) {
    forall i :: 0 <= i < |s| ==> !IsSpace(s[i])
  }

  /** A field of `split(' ')`: non-empty and without whitespace. */
  predicate IsField(s: string) {
    s != [] && NoSpace(s)
  }

  predicate AllDigits(s: string) {
    forall i :: 0 <= i < |s| ==> IsDigit(s[i])
  }

  // ---------------------------------------------------------------------------
  // strip and chomp

  /** `String#lstrip`: drops the leading whitespace and nothing else. */
  function StripLeft(s: string): (r: string)
    ensures |r| <= |s| && r == s[|s| - |r|..]
    ensures r == [] || !IsSpace(r[0])
  {
    if s != [] && IsSpace(s[0]) then StripLeft(s[1..]) else s
  }

  lemma StripLeftUnchanged(s: string)
    requires s == [] || !IsSpace(s[0])
    ensures StripLeft(s) == s
  {
  }

  /** `String#rstrip`: drops the trailing whitespace and nothing else. */
  function StripRight(s: string): (r: string)
    ensures |r| <= |s|
    ensures r == [] || !IsSpace(r[|r| - 1])
  {
    if s != [] && IsSpace(s[|s| - 1]) then StripRight(s[..|s| - 1]) else s
  }

  /** `rstrip` keeps a prefix of its input. */
  lemma {:induction false} StripRightPrefix(s: string)
    ensures StripRight(s) == s[..|StripRight(s)|]
    decreases |s|
  {
    if s != [] && IsSpace(s[|s| - 1]) {
      StripRightPrefix(s[..|s| - 1]);
    }
  }

  /** Text after a non-space character is stripped on its own. */
  lemma {:induction false} StripRightAfter(a: string, b: string)
    requires a != [] && !IsSpace(a[|a| - 1])
    ensures StripRight(a + b) == a + StripRight(b)
    decreases |b|
  {
    var s := a + b;
    if b == [] {
      assert s == a;
    } else if IsSpace(b[|b| - 1]) {
      assert s[..|s| - 1] == a + b[..|b| - 1];
      StripRightAfter(a, b[..|b| - 1]);
    } else {
      assert s[|s| - 1] == b[|b| - 1];
    }
  }

  /** `lstrip` keeps everything from the first non-space character on, so it cannot empty a string ending in one. */
  lemma {:induction false} StripLeftKeepsLast(s: string)
    requires s != [] && !IsSpace(s[|s| - 1])
    ensures StripLeft(s) != []
    decreases |s|
  {
    if IsSpace(s[0]) {
      StripLeftKeepsLast(s[1..]);
    }
  }

  /** `String#strip` */
  function Strip(s: string): (r: string)
    ensures |r| <= |s|
    ensures r == [] || (!IsSpace(r[0]) && !IsSpace(r[|r| - 1]))
  {
    var right := StripRight(s);
    var r := StripLeft(right);
    assert r != [] ==> r[|r| - 1] == right[|right| - 1];
    r
  }

  /** `strip` only removes characters: one the text lacks, the result lacks. */
  lemma StripKeepsOut(s: string, c: char)
    requires c !in s
    ensures c !in StripRight(s) && c !in Strip(s)
  {
    StripRightPrefix(s);
    var right := StripRight(s);
    assert right == s[..|right|];
    var r := StripLeft(right);
    assert r == right[|right| - |r|..];
  }

  /** A string that neither starts nor ends with whitespace is its own `strip`. */
  lemma StripUnchanged(s: string)
    requires s == [] || (!IsSpace(s[0]) && !IsSpace(s[|s| - 1]))
    ensures Strip(s) == s
  {
  }

  /** `String#chomp` with the default separator: drops one trailing "\r\n", "\n" or "\r". */
  function Chomp(s: string): (r: string)
    ensures r <= s && |s| - 2 <= |r|
    ensures |r| < |s| ==> s[|s| - 1] == '\n' || s[|s| - 1] == '\r'
  {
    if |s| >= 2 && s[|s| - 2..] == "\r\n" then s[..|s| - 2]
    else if s != [] && (s[|s| - 1] == '\n' || s[|s| - 1] == '\r') then s[..|s| - 1]
    else s
  }

  // ---------------------------------------------------------------------------
  // split on a character

  /** The index of the first occurrence of `c` in `s`. */
  function IndexOf(s: string, c: char): (i: nat)
    requires c in s
    ensures i < |s| && s[i] == c && c !in s[..i]
  {
    if s[0] == c then 0 else 1 + IndexOf(s[1..], c)
  }

  /** The index of the last occurrence of `c` in `s`. */
  function LastIndexOf(s: string, c: char): (i: nat)
    requires c in s
    ensures i < |s| && s[i] == c && c !in s[i + 1..]
  {
    if s[|s| - 1] == c then |s| - 1
    else
      assert s == s[..|s| - 1] + [s[|s| - 1]];
      LastIndexOf(s[..|s| - 1], c)
  }

  /** No occurrence of `c` comes before the one `IndexOf` finds. */
  lemma {:induction false} IndexOfLeast(s: string, c: char, k: nat)
    requires k < |s| && s[k] == c
    ensures IndexOf(s, c) <= k
  {
    if s[0] != c {
      IndexOfLeast(s[1..], c, k - 1);
    }
  }

  /** No occurrence of `c` comes after the one `LastIndexOf` finds. */
  lemma {:induction false} LastIndexOfGreatest(s: string, c: char, k: nat)
    requires k < |s| && s[k] == c
    ensures k <= LastIndexOf(s, c)
  {
    if s[|s| - 1] != c {
      LastIndexOfGreatest(s[..|s| - 1], c, k);
    }
  }

  lemma LastIndexOfBefore(p: string, c: char, t: string)
    requires c !in t
    ensures c in p + [c] + t && LastIndexOf(p + [c] + t, c) == |p|
  {
    var s := p + [c] + t;
    assert s[|p|] == c;
    assert s[|p| + 1..] == t;
  }

  /** `gsub` of one character by nothing. */
  function RemoveAll(s: string, c: char): (r: string)
    ensures c !in r && |r| <= |s|
  {
    if s == [] then ""
    else if s[0] == c then RemoveAll(s[1..], c)
    else [s[0]] + RemoveAll(s[1..], c)
  }

  /** The pieces of `s` between occurrences of `c`, empty pieces included. */
  function Pieces(s: string, c: char): (r: seq<string>)
    ensures |r| >= 1
    decreases |s|
  {
    if c in s then
      var i := IndexOf(s, c);
      [s[..i]] + Pieces(s[i + 1..], c)
    else
      [s]
  }

  /** The pieces put back together with `c` between them (Ruby's `Array#join`). */
  function Join(ps: seq<string>, c: char): string
  {
    if ps == [] then ""
    else if |ps| == 1 then ps[0]
    else ps[0] + [c] + Join(ps[1..], c)
  }

  lemma IndexOfAfter(p: string, c: char, t: string)
    requires c !in p
    ensures c in p + [c] + t && IndexOf(p + [c] + t, c) == |p|
  {
    var s := p + [c] + t;
    assert s[|p|] == c;
    if p != [] {
      assert s[1..] == p[1..] + [c] + t;
      IndexOfAfter(p[1..], c, t);
    }
  }

  /** The first piece ends at the first `c`. */
  lemma PiecesCons(p: string, c: char, t: string)
    requires c !in p
    ensures Pieces(p + [c] + t, c) == [p] + Pieces(t, c)
  {
    var s := p + [c] + t;
    IndexOfAfter(p, c, t);
    assert s[..|p|] == p;
    assert s[|p| + 1..] == t;
  }

  /** Ruby's `split` drops the empty fields at the end. */
  function DropTrailingEmpty(ps: seq<string>): (r: seq<string>)
    ensures |r| <= |ps|
  {
    if ps != [] && ps[|ps| - 1] == "" then DropTrailingEmpty(ps[..|ps| - 1]) else ps
  }

  /** Only empty fields at the end are dropped: the result is a prefix ending in a non-empty field. */
  lemma {:induction false} DropTrailingEmptyShape(ps: seq<string>)
    ensures DropTrailingEmpty(ps) <= ps
    ensures DropTrailingEmpty(ps) == [] || DropTrailingEmpty(ps)[|DropTrailingEmpty(ps)| - 1] != ""
    ensures forall i :: |DropTrailingEmpty(ps)| <= i < |ps| ==> ps[i] == ""
  {
    if ps != [] && ps[|ps| - 1] == "" {
      var init := ps[..|ps| - 1];
      DropTrailingEmptyShape(init);
      var r := DropTrailingEmpty(init);
      forall i | |r| <= i < |ps| ensures ps[i] == "" {
        if i < |init| { assert ps[i] == init[i]; }
      }
    }
  }

  /** `String#split(c)` for a one-character separator other than a space. */
  function Split(s: string, c: char): seq<string>
    requires c != ' '
  {
    DropTrailingEmpty(Pieces(s, c))
  }

  /** The fields `split(c)` returns: before the first `c`, between the first two, and so on. */
  lemma SplitFields(s: string, c: char)
    requires c != ' '
    ensures Split(s, c) <= Pieces(s, c)
    ensures c !in s && s != "" ==> Split(s, c) == [s]
    ensures c !in s && s == "" ==> Split(s, c) == []
  {
    DropTrailingEmptyShape(Pieces(s, c));
  }

  // ---------------------------------------------------------------------------
  // split(' ')

  /** The longest prefix of `s` without whitespace. */
  function Word(s: string): (w: string)
    ensures |w| <= |s| && NoSpace(w)
    ensures s != [] && !IsSpace(s[0]) ==> w != []
  {
    if s != [] && !IsSpace(s[0]) then [s[0]] + Word(s[1..]) else []
  }

  /** `String#split(' ')`: the fields between runs of whitespace, leading and trailing whitespace ignored. */
  function Words(s: string): seq<string>
    decreases |s|
  {
    if s == [] then []
    else if IsSpace(s[0]) then Words(s[1..])
    else
      var w := Word(s);
      [w] + Words(s[|w|..])
  }

  lemma {:induction false} WordOfPrefix(w: string, rest: string)
    requires NoSpace(w)
    requires rest == [] || IsSpace(rest[0])
    ensures Word(w + rest) == w
  {
    if w == [] {
    } else {
      assert (w + rest)[1..] == w[1..] + rest;
      WordOfPrefix(w[1..], rest);
    }
  }

  /** A space-free first field is split off whole, whatever whitespace follows it. */
  lemma WordsCons(w: string, rest: string)
    requires IsField(w)
    requires rest == [] || IsSpace(rest[0])
    ensures Words(w + rest) == [w] + Words(rest)
  {
    var s := w + rest;
    WordOfPrefix(w, rest);
    assert s[|w|..] == rest;
  }

  /** Leading whitespace does not change the fields. */
  lemma WordsSkipSpace(s: string)
    requires s != [] && IsSpace(s[0])
    ensures Words(s) == Words(s[1..])
  {
  }

  /** A field, one space, then anything: the field, then the fields of the rest. */
  lemma WordsSpace(a: string, rest: string)
    requires IsField(a)
    ensures Words(a + " " + rest) == [a] + Words(rest)
  {
    var after := " " + rest;
    assert a + " " + rest == a + after;
    WordsCons(a, after);
    WordsSkipSpace(after);
    assert after[1..] == rest;
  }

  /** Two fields separated by one space, then a tail that starts with whitespace or is empty. */
  lemma {:induction false} WordsTwo(a: string, b: string, tail: string)
    requires IsField(a) && IsField(b)
    requires tail == [] || IsSpace(tail[0])
    ensures Words(a + " " + b + tail) == [a, b] + Words(tail)
  {
    var bt := b + tail;
    assert Words(a + " " + b + tail) == [a] + Words(bt) by {
      assert a + " " + b + tail == a + " " + bt;
      WordsSpace(a, bt);
    }
    assert Words(bt) == [b] + Words(tail) by {
      WordsCons(b, tail);
    }
    assert [a] + ([b] + Words(tail)) == [a, b] + Words(tail);
  }

  /** Joining space-free fields with single spaces, then `split(' ')`, gives back the fields. */
  lemma {:induction false} WordsOfJoin(ws: seq<string>)
    requires forall i :: 0 <= i < |ws| ==> IsField(ws[i])
    ensures Words(Join(ws, ' ')) == ws
  {
    if ws == [] {
    } else {
      var w := ws[0];
      assert IsField(w);
      if |ws| == 1 {
        assert Join(ws, ' ') == w;
        WordsCons(w, []);
        assert w + [] == w;
        assert Words([]) == [];
      } else {
        var tail := ws[1..];
        assert forall i :: 0 <= i < |tail| ==> IsField(tail[i]) by {
          forall i | 0 <= i < |tail| ensures IsField(tail[i]) {
            assert tail[i] == ws[i + 1];
          }
        }
        var rest := Join(tail, ' ');
        assert Join(ws, ' ') == w + (" " + rest);
        WordsCons(w, " " + rest);
        WordsSkipSpace(" " + rest);
        assert (" " + rest)[1..] == rest;
        WordsOfJoin(tail);
        assert ws == [w] + tail;
      }
    }
  }

  /** A line whose last field is empty ends in a space, which `split(' ')` ignores. */
  lemma {:induction false} WordsOfJoinThenEmpty(ws: seq<string>)
    requires ws != []
    requires forall i :: 0 <= i < |ws| ==> IsField(ws[i])
    ensures Words(Join(ws + [""], ' ')) == ws
  {
    var w := ws[0];
    assert IsField(w);
    var all := ws + [""];
    assert all[0] == w && all[1..] == ws[1..] + [""];
    if |ws| == 1 {
      assert Join(all, ' ') == w + " " + "";
      WordsSpace(w, "");
    } else {
      var tail := ws[1..];
      forall i | 0 <= i < |tail| ensures IsField(tail[i]) {
        assert tail[i] == ws[i + 1];
      }
      assert Join(all, ' ') == w + " " + Join(tail + [""], ' ');
      WordsSpace(w, Join(tail + [""], ' '));
      WordsOfJoinThenEmpty(tail);
      assert ws == [w] + tail;
    }
  }

  // ---------------------------------------------------------------------------
  // a literal regular expression

  /** `pat` occurs somewhere in `s`: what a regular expression of literal characters, such as `/\(timeout\)/`, matches. */
  predicate Contains(s: string, pat: string)
    decreases |s|
  {
    pat <= s || (s != [] && Contains(s[1..], pat))
  }

  /** Whatever surrounds it, an occurrence of `pat` is found. */
  lemma {:induction false} ContainsAt(a: string, pat: string, b: string)
    ensures Contains(a + pat + b, pat)
  {
    if a != [] {
      assert (a + pat + b)[1..] == a[1..] + pat + b;
      ContainsAt(a[1..], pat, b);
    } else {
      assert a + pat + b == pat + b;
    }
  }

  /** Every occurrence found lies at some index of `s`. */
  lemma {:induction false} ContainsWitness(s: string, pat: string) returns (i: nat)
    requires Contains(s, pat)
    ensures i + |pat| <= |s| && s[i..i + |pat|] == pat
  {
    if pat <= s {
      i := 0;
    } else {
      var j := ContainsWitness(s[1..], pat);
      i := j + 1;
      assert s[i..i + |pat|] == s[1..][j..j + |pat|];
    }
  }

  // ---------------------------------------------------------------------------
  // to_i and to_s

  function DigitValue(c: char): nat
    requires IsDigit(c)
  {
    c as int - '0' as int
  }

  function DigitChar(d: nat): char
    requires d < 10
  {
    ('0' as int + d) as char
  }

  /** The leading digits `to_i` reads: single underscores between digits are skipped. */
  function LeadingDigits(s: string): (d: string)
    ensures AllDigits(d)
  {
    if s != [] && IsDigit(s[0]) then
      if |s| >= 3 && s[1] == '_' && IsDigit(s[2]) then [s[0]] + LeadingDigits(s[2..])
      else [s[0]] + LeadingDigits(s[1..])
    else []
  }

  /** The leading ASCII digits, what `\d+` matches greedily. */
  function PlainDigits(s: string): (d: string)
    ensures AllDigits(d) && |d| <= |s| && d == s[..|d|]
    ensures |d| < |s| ==> !IsDigit(s[|d|])
  {
    if s != [] && IsDigit(s[0]) then [s[0]] + PlainDigits(s[1..]) else []
  }

  lemma {:induction false} PlainDigitsOf(d: string, t: string)
    requires AllDigits(d)
    requires t == [] || !IsDigit(t[0])
    ensures PlainDigits(d + t) == d
  {
    if d != [] {
      assert (d + t)[1..] == d[1..] + t;
      PlainDigitsOf(d[1..], t);
    } else {
      assert d + t == t;
    }
  }

  function DecimalValue(d: string): nat
    requires AllDigits(d)
  {
    if d == [] then 0 else DecimalValue(d[..|d| - 1]) * 10 + DigitValue(d[|d| - 1])
  }

  /** `String#to_i`: leading whitespace, an optional sign, then digits; 0 when there are none. */
  function ToI(s: string): int
  {
    var t := StripLeft(s);
    if t != [] && t[0] == '-' then -(DecimalValue(LeadingDigits(t[1..])) as int)
    else if t != [] && t[0] == '+' then DecimalValue(LeadingDigits(t[1..]))
    else DecimalValue(LeadingDigits(t))
  }

  /** Decimal digits of a natural number, most significant first. */
  function NatToString(n: nat): (s: string)
    ensures s != [] && AllDigits(s)
  {
    if n < 10 then [DigitChar(n)] else NatToString(n / 10) + [DigitChar(n % 10)]
  }

  /** `Integer#to_s` */
  function IntToString(n: int): (s: string)
    ensures s != [] && NoSpace(s)
    ensures forall i :: 0 <= i < |s| ==> IsDigit(s[i]) || s[i] == '-'
  {
    if n < 0 then "-" + NatToString(-n) else NatToString(n)
  }

  lemma {:induction false} DecimalOfNatToString(n: nat)
    ensures DecimalValue(NatToString(n)) == n
  {
    if n >= 10 {
      var s := NatToString(n);
      assert s[..|s| - 1] == NatToString(n / 10);
      DecimalOfNatToString(n / 10);
    }
  }

  lemma {:induction false} LeadingDigitsOfDigits(d: string)
    requires AllDigits(d)
    ensures LeadingDigits(d) == d
  {
    if d != [] {
      LeadingDigitsOfDigits(d[1..]);
    }
  }

  /** `to_i` of unsigned digits is their decimal value. */
  lemma ToIOfDigits(d: string)
    requires d != [] && AllDigits(d)
    ensures ToI(d) == DecimalValue(d)
  {
    assert IsDigit(d[0]);
    StripLeftUnchanged(d);
    LeadingDigitsOfDigits(d);
  }

  /** `to_i` of a minus sign and digits is the negated decimal value. */
  lemma ToIOfNegative(d: string)
    requires AllDigits(d)
    ensures ToI("-" + d) == -(DecimalValue(d) as int)
  {
    var s := ['-'] + d;
    assert s == "-" + d;
    assert s[0] == '-' && s[1..] == d;
    StripLeftUnchanged(s);
    LeadingDigitsOfDigits(d);
    assert ToI(s) == -(DecimalValue(LeadingDigits(s[1..])) as int);
  }

  /** `to_i` reads back what `to_s` wrote. */
  lemma ToIOfIntToString(n: int)
    ensures ToI(IntToString(n)) == n
  {
    if n < 0 {
      ToIOfNegative(NatToString(-n));
      DecimalOfNatToString(-n);
    } else {
      ToIOfDigits(NatToString(n));
      DecimalOfNatToString(n);
    }
  }
}
