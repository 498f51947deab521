/**
 * The pieces of Rust's string library that the FEN codecs lean on:
 * `split_whitespace`, `lines`, `str::len` (UTF-8 bytes), the decimal
 * `to_string` of an unsigned integer and `str::parse` into `u8` / `u16`.
 */
module Text {
  import opened Wrappers

  // ---------------------------------------------------------------------
  // Whitespace and split_whitespace
  // ---------------------------------------------------------------------

  /** Rust's `char::is_whitespace`: the Unicode White_Space property. */
  predicate IsWhitespace(c: char) {
    || c == ' '
    || ('\t' <= c <= '\r')
    || c == '\U{0085}' || c == '\U{00A0}' || c == '\U{1680}'
    || ('\U{2000}' <= c <= '\U{200A}')
    || c == '\U{2028}' || c == '\U{2029}' || c == '\U{202F}' || c == '\U{205F}'
    || c == '\U{3000}'
  }

  /** A token `split_whitespace` can yield: non-empty, free of whitespace. */
  predicate IsWord(t: string) {
    t != [] && forall i :: 0 <= i < |t| ==> !IsWhitespace(t[i])
  }

  /** Length of the longest whitespace-free prefix of `s`. */
  function WordLength(s: string): (n: nat)
    ensures n <= |s|
    ensures forall i :: 0 <= i < n ==> !IsWhitespace(s[i])
    ensures n < |s| ==> IsWhitespace(s[n])
  {
    if s == [] || IsWhitespace(s[0]) then 0 else 1 + WordLength(s[1..])
  }

  /** `str::split_whitespace`: the maximal whitespace-free runs of `s`, in order. */
  function SplitWhitespace(s: string): (r: seq<string>)
    ensures forall k :: 0 <= k < |r| ==> IsWord(r[k])
    decreases |s|
  {
    if s == [] then []
    else if IsWhitespace(s[0]) then SplitWhitespace(s[1..])
    else
      var n := WordLength(s);
      [s[..n]] + SplitWhitespace(s[n..])
  }

  /** The words of `ts` separated by single spaces (the `"{} {} ..."` formats). */
  function JoinWords(ts: seq<string>): string {
    if ts == [] then []
    else if |ts| == 1 then ts[0]
    else ts[0] + [' '] + JoinWords(ts[1..])
  }

  lemma {:induction false} WordLengthOfWord(w: string, rest: string)
    requires IsWord(w)
    requires rest == [] || IsWhitespace(rest[0])
    ensures WordLength(w + rest) == |w|
  {
    if |w| > 1 {
      assert (w + rest)[1..] == w[1..] + rest;
      WordLengthOfWord(w[1..], rest);
    } else {
      assert (w + rest)[1..] == rest;
    }
  }

  /** Splitting a space-joined list of words gives the words back. */
  lemma {:induction false} SplitJoinWords(ts: seq<string>)
    requires forall k :: 0 <= k < |ts| ==> IsWord(ts[k])
    ensures SplitWhitespace(JoinWords(ts)) == ts
  {
    if ts == [] {
    } else {
      var rest := if |ts| == 1 then [] else [' '] + JoinWords(ts[1..]);
      var s := ts[0] + rest;
      assert s == JoinWords(ts);
      WordLengthOfWord(ts[0], rest);
      assert s[..|ts[0]|] == ts[0];
      assert s[|ts[0]|..] == rest;
      if |ts| > 1 {
        assert rest[1..] == JoinWords(ts[1..]);
        SplitJoinWords(ts[1..]);
        assert SplitWhitespace(rest) == ts[1..];
      }
      assert SplitWhitespace(s) == [ts[0]] + SplitWhitespace(rest);
    }
  }

  // ---------------------------------------------------------------------
  // str::lines
  // ---------------------------------------------------------------------

  /** Number of characters before the first '\n' of `s` (all of them if none). */
  function LineLength(s: string): (n: nat)
    ensures n <= |s|
    ensures forall i :: 0 <= i < n ==> s[i] != '\n'
    ensures n < |s| ==> s[n] == '\n'
  {
    if s == [] || s[0] == '\n' then 0 else 1 + LineLength(s[1..])
  }

  /** A line that was ended by "\r\n" loses its '\r' too. */
  function StripCarriageReturn(l: string): string {
    if l != [] && l[|l| - 1] == '\r' then l[..|l| - 1] else l
  }

  /**
   * `str::lines`: the pieces of `split_inclusive('\n')`, each without its
   * final "\n" or "\r\n"; a final line ending yields no empty last line, and
   * the empty string has no lines at all.
   */
  function Lines(s: string): (r: seq<string>)
    ensures forall k :: 0 <= k < |r| ==> '\n' !in r[k]
    decreases |s|
  {
    if s == [] then []
    else
      var n := LineLength(s);
      if n == |s| then [s]
      else [StripCarriageReturn(s[..n])] + Lines(s[n + 1..])
  }

  lemma SingleLine(s: string)
    requires s != [] && '\n' !in s
    ensures Lines(s) == [s]
  {
    assert LineLength(s) == |s|;
  }

  /** The lines joined back with '\n' between them. */
  function JoinLines(ls: seq<string>): string {
    if ls == [] then []
    else if |ls| == 1 then ls[0]
    else ls[0] + "\n" + JoinLines(ls[1..])
  }

  /** `s` without its final '\n', if it ends with one. */
  function DropLineEnd(s: string): string {
    if s != [] && s[|s| - 1] == '\n' then s[..|s| - 1] else s
  }

  /**
   * Without '\r', `lines()` loses nothing but a final '\n': joining the
   * lines with '\n' gives the text back, less its line ending if it has one.
   */
  lemma {:induction false} LinesJoin(s: string)
    requires '\r' !in s
    ensures JoinLines(Lines(s)) == DropLineEnd(s)
    decreases |s|
  {
    if s != [] {
      var n := LineLength(s);
      if n < |s| {
        var line, rest := LinesStep(s);
        if rest == [] {
          assert Lines(s) == [line];
          assert s[..|s| - 1] == line;
        } else {
          LinesJoin(rest);
          JoinMore(line, Lines(rest));
          DropLineEndAppend(line + "\n", rest);
        }
      } else {
        assert Lines(s) == [s];
      }
    }
  }

  lemma DropLineEndAppend(x: string, y: string)
    requires y != []
    ensures DropLineEnd(x + y) == x + DropLineEnd(y)
  {
    if y[|y| - 1] == '\n' {
      assert (x + y)[..|x + y| - 1] == x + y[..|y| - 1];
    }
  }

  /** The first line of a text with a '\n' and no '\r', and the text after that '\n'. */
  lemma LinesStep(s: string) returns (line: string, rest: string)
    requires '\r' !in s && LineLength(s) < |s|
    ensures s == line + "\n" + rest
    ensures Lines(s) == [line] + Lines(rest)
    ensures '\r' !in rest
    ensures rest != [] ==> Lines(rest) != []
  {
    var n := LineLength(s);
    line, rest := s[..n], s[n + 1..];
    assert StripCarriageReturn(line) == line by {
      if line != [] {
        assert line[|line| - 1] == s[n - 1];
      }
    }
    assert s == line + "\n" + rest;
    assert forall i | 0 <= i < |rest| :: rest[i] == s[n + 1 + i];
  }

  lemma JoinMore(line: string, ls: seq<string>)
    requires ls != []
    ensures JoinLines([line] + ls) == line + "\n" + JoinLines(ls)
  {
    assert ([line] + ls)[1..] == ls;
  }

  // ---------------------------------------------------------------------
  // str::len
  // ---------------------------------------------------------------------

  /** Bytes that UTF-8 spends on `c`. */
  function Utf8Width(c: char): (w: nat)
    ensures 1 <= w <= 4
    ensures w == 1 <==> c < '\U{0080}'
  {
    if c < '\U{0080}' then 1
    else if c < '\U{0800}' then 2
    else if c < '\U{10000}' then 3
    else 4
  }

  /** `str::len`: the length of `s` in UTF-8 bytes. */
  function Utf8Length(s: string): (n: nat)
    ensures n >= |s|
  {
    if s == [] then 0 else Utf8Width(s[0]) + Utf8Length(s[1..])
  }

  // ---------------------------------------------------------------------
  // Decimal digits: to_string and parse::<u8> / parse::<u16>
  // ---------------------------------------------------------------------

  predicate IsDigit(c: char) {
    '0' <= c <= '9'
  }

  predicate AllDigits(s: string) {
    forall i :: 0 <= i < |s| ==> IsDigit(s[i])
  }

  function DigitValue(c: char): (d: nat)
    requires IsDigit(c)
    ensures d < 10
  {
    (c as int) - ('0' as int)
  }

  function DigitChar(d: nat): (c: char)
    requires d < 10
    ensures IsDigit(c) && DigitValue(c) == d
  {
    (('0' as int) + d) as char
  }

  /** The `to_string` of an unsigned integer: decimal, no leading zero. */
  function NatToString(n: nat): (r: string)
    ensures r != [] && AllDigits(r)
    ensures r[0] == '0' ==> n == 0
    ensures |r| == 1 <==> n < 10
  {
    if n < 10 then [DigitChar(n)] else NatToString(n / 10) + [DigitChar(n % 10)]
  }

  /** The value of a string of decimal digits, most significant first. */
  function DigitsValue(s: string): nat
    requires AllDigits(s)
  {
    if s == [] then 0 else DigitsValue(s[..|s| - 1]) * 10 + DigitValue(s[|s| - 1])
  }

  /**
   * `str::parse` into an unsigned integer type whose largest value is `max`
   * (255 for `u8`, 65535 for `u16`): an optional '+', then at least one
   * decimal digit, and a value that fits.  Every other input is an error,
   * including "", "+", and anything starting with '-'.
   */
  function ParseUnsigned(s: string, max: nat): (r: Result<nat>)
    ensures r.Ok? ==> r.value <= max
    ensures r.Ok? ==> s != [] && (IsDigit(s[0]) || (s[0] == '+' && |s| > 1))
    ensures r.Ok? ==> forall i :: 0 < i < |s| ==> IsDigit(s[i])
    ensures var d := if s != [] && s[0] == '+' then s[1..] else s;
      r.Ok? <==> s != [] && d != [] && AllDigits(d) && DigitsValue(d) <= max
    ensures var d := if s != [] && s[0] == '+' then s[1..] else s;
      r.Ok? ==> AllDigits(d) && r.value == DigitsValue(d)
  {
    if s == [] then Err(ParseError)
    else
      var digits := if s[0] == '+' then s[1..] else s;
      if digits == [] || !AllDigits(digits) then Err(ParseError)
      else if DigitsValue(digits) > max then Err(ParseError)
      else Ok(DigitsValue(digits))
  }

  lemma {:induction false} DigitsValueOfNatToString(n: nat)
    ensures DigitsValue(NatToString(n)) == n
  {
    if n >= 10 {
      var p := NatToString(n / 10);
      var s := p + [DigitChar(n % 10)];
      assert s[..|s| - 1] == p;
      DigitsValueOfNatToString(n / 10);
    }
  }

  /** Printing a number and parsing it back, within range, is the identity. */
  lemma ParseNatToString(n: nat, max: nat)
    requires n <= max
    ensures ParseUnsigned(NatToString(n), max) == Ok(n)
  {
    DigitsValueOfNatToString(n);
  }
}
