/** `toml_writer.py`, and the strings, arrays and comments of a TOML v1.0.0 reader. A `string` here is
    a sequence of Unicode scalar values, which is what a UTF-8 file can hold. */
module Toml {
  import opened Optional
  import opened Scan

  // ----- toml_writer.py -----

  predicate IsControl(c: char) { c as int < 0x20 || c as int == 0x7f }

  function EscapeChar(c: char): string {
    if c == '\\' then "\\\\"
    else if c == '"' then "\\\""
    else if c == '\t' then "\\t"
    else if c == '\n' then "\\n"
    else if c == '\r' then "\\r"
    else if IsControl(c) then "\\u" + Hex4(c as int)
    else [c]
  }

  function EscapeBasicString(value: string): string {
    if value == "" then "" else EscapeChar(value[0]) + EscapeBasicString(value[1..])
  }

  function Quoted(value: string): string {
    "\"" + EscapeBasicString(value) + "\""
  }

  function Join(separator: string, parts: seq<string>): string {
    if parts == [] then ""
    else if |parts| == 1 then parts[0]
    else parts[0] + separator + Join(separator, parts[1..])
  }

  function QuotedAll(values: seq<string>): (r: seq<string>)
    ensures |r| == |values| && forall i :: 0 <= i < |r| ==> r[i] == Quoted(values[i])
  {
    seq(|values|, i requires 0 <= i < |values| => Quoted(values[i]))
  }

  function FormatStringArray(values: seq<string>): string {
    "[" + Join(", ", QuotedAll(values)) + "]"
  }

  // ----- reading strings -----

  function ReadCodePoint(s: string, digits: nat): (r: Parse<char>)
    ensures r.Got? ==> |r.rest| <= |s|
  {
    match ReadHex(s, digits)
    case Fail => Fail
    case Got(n, rest) => if IsScalar(n) then Got(n as char, rest) else Fail
  }

  /** What follows a backslash (section "String"). */
  function ReadEscape(s: string): (r: Parse<char>)
    ensures r.Got? ==> |r.rest| < |s|
  {
    if s == "" then Fail
    else if s[0] == 'b' then Got('\U{0008}', s[1..])
    else if s[0] == 't' then Got('\t', s[1..])
    else if s[0] == 'n' then Got('\n', s[1..])
    else if s[0] == 'f' then Got('\U{000C}', s[1..])
    else if s[0] == 'r' then Got('\r', s[1..])
    else if s[0] == '"' then Got('"', s[1..])
    else if s[0] == '\\' then Got('\\', s[1..])
    else if s[0] == 'u' then ReadCodePoint(s[1..], 4)
    else if s[0] == 'U' then ReadCodePoint(s[1..], 8)
    else Fail
  }

  /** The body of a basic string up to and including its closing quotation mark. */
  function ReadBody(s: string): (r: Parse<string>)
    ensures r.Got? ==> |r.rest| < |s|
    decreases |s|
  {
    if s == "" then Fail
    else if s[0] == '"' then Got("", s[1..])
    else if s[0] == '\\' then
      match ReadEscape(s[1..])
      case Fail => Fail
      case Got(c, rest) => Prepend(c, ReadBody(rest))
    else if IsControl(s[0]) && s[0] != '\t' then Fail
    else Prepend(s[0], ReadBody(s[1..]))
  }

  /** The body of a literal string up to and including its closing quotation mark. */
  function ReadLiteral(s: string): (r: Parse<string>)
    ensures r.Got? ==> |r.rest| < |s|
    decreases |s|
  {
    if s == "" then Fail
    else if s[0] == '\'' then Got("", s[1..])
    else if IsControl(s[0]) && s[0] != '\t' then Fail
    else Prepend(s[0], ReadLiteral(s[1..]))
  }

  /** A basic or a literal string on one line. */
  function ReadString(s: string): (r: Parse<string>)
    ensures r.Got? ==> |r.rest| < |s|
  {
    if s == "" then Fail
    else if s[0] == '"' then ReadBody(s[1..])
    else if s[0] == '\'' then ReadLiteral(s[1..])
    else Fail
  }

  lemma ReadsPlainChar(c: char, rest: string)
    requires c != '"' && c != '\\' && (!IsControl(c) || c == '\t')
    ensures ReadBody([c] + rest) == Prepend(c, ReadBody(rest))
  {
    assert ([c] + rest)[1..] == rest;
  }

  lemma ReadsAfterBackslash(x: string, c: char, rest: string)
    requires ReadEscape(x) == Got(c, rest)
    ensures ReadBody(['\\'] + x) == Prepend(c, ReadBody(rest))
  {
    assert (['\\'] + x)[1..] == x;
  }

  lemma ReadsShortEscape(k: char, c: char, rest: string)
    requires (k == '"' && c == '"') || (k == '\\' && c == '\\') || (k == 't' && c == '\t')
      || (k == 'n' && c == '\n') || (k == 'r' && c == '\r')
    ensures ReadEscape([k] + rest) == Got(c, rest)
  {
    assert ([k] + rest)[1..] == rest;
  }

  lemma SplitsEscape(k: char, rest: string)
    ensures ['\\', k] + rest == ['\\'] + ([k] + rest)
  {
  }

  lemma SplitsLongEscape(hex: string, rest: string)
    ensures "\\u" + hex + rest == ['\\'] + ("u" + hex + rest)
  {
  }

  /** What one escaped character reads back as, whatever text comes after it. */
  lemma ReadsEscapedChar(c: char, rest: string)
    ensures ReadBody(EscapeChar(c) + rest) == Prepend(c, ReadBody(rest))
  {
    if c == '\\' || c == '"' || c == '\t' || c == '\n' || c == '\r' {
      var k := EscapeChar(c)[1];
      ReadsShortEscape(k, c, rest);
      SplitsEscape(k, rest);
      ReadsAfterBackslash([k] + rest, c, rest);
    } else if IsControl(c) {
      ReadsControlEscape(c, rest);
      SplitsLongEscape(Hex4(c as int), rest);
      ReadsAfterBackslash("u" + Hex4(c as int) + rest, c, rest);
    } else {
      ReadsPlainChar(c, rest);
    }
  }

  lemma ReadsControlEscape(c: char, rest: string)
    requires IsControl(c)
    ensures ReadEscape("u" + Hex4(c as int) + rest) == Got(c, rest)
  {
    assert ("u" + Hex4(c as int) + rest)[1..] == Hex4(c as int) + rest;
    ReadsHex4(c as int, rest);
  }

  /** Escaping is invertible, and the scan for the closing quotation mark stops exactly at the one
      that the writer put after the escaped text. */
  lemma {:induction false} ReadsEscapedBody(value: string, rest: string)
    ensures ReadBody(EscapeBasicString(value) + "\"" + rest) == Got(value, rest)
    decreases |value|
  {
    if value == "" {
      assert EscapeBasicString(value) + "\"" + rest == "\"" + rest;
    } else {
      var tail := EscapeBasicString(value[1..]) + "\"" + rest;
      assert EscapeBasicString(value) + "\"" + rest == EscapeChar(value[0]) + tail;
      ReadsEscapedChar(value[0], tail);
      ReadsEscapedBody(value[1..], rest);
      assert [value[0]] + value[1..] == value;
    }
  }

  lemma ReadsQuoted(value: string, rest: string)
    ensures ReadString(Quoted(value) + rest) == Got(value, rest)
  {
    assert (Quoted(value) + rest)[1..] == EscapeBasicString(value) + "\"" + rest;
    ReadsEscapedBody(value, rest);
  }

  lemma {:induction false} EscapingIsInjective(a: string, b: string)
    requires EscapeBasicString(a) == EscapeBasicString(b)
    ensures a == b
  {
    ReadsEscapedBody(a, "");
    ReadsEscapedBody(b, "");
  }

  // ----- reading values -----

  datatype Scalar = Text(text: string) | Texts(texts: seq<string>)

  function SkipBlanks(s: string): (r: string)
    ensures |r| <= |s| && (r != "" ==> r[0] != ' ' && r[0] != '\t')
  {
    if s != "" && (s[0] == ' ' || s[0] == '\t') then SkipBlanks(s[1..]) else s
  }

  /** What follows the text of a comment: the end of its line. */
  function SkipComment(s: string): (r: string)
    ensures |r| <= |s| && (r != "" ==> IsControl(r[0]) && r[0] != '\t')
  {
    if s == "" || (IsControl(s[0]) && s[0] != '\t') then s else SkipComment(s[1..])
  }

  /** Blanks, newlines and comments: what may stand between the parts of an array and between
      statements. */
  function SkipLines(s: string): (r: string)
    ensures |r| <= |s| && (r != "" ==> r[0] != ' ' && r[0] != '\t' && r[0] != '\n')
    decreases |s|
  {
    if s == "" then s
    else if s[0] == ' ' || s[0] == '\t' || s[0] == '\n' then SkipLines(s[1..])
    else if s[0] == '#' then SkipLines(SkipComment(s[1..]))
    else s
  }

  /** The elements after `[` or after a comma; a trailing comma is allowed. */
  function ReadElements(s: string): (r: Parse<seq<string>>)
    ensures r.Got? ==> |r.rest| < |s|
    decreases |s|
  {
    var s1 := SkipLines(s);
    if s1 == "" then Fail
    else if s1[0] == ']' then Got([], s1[1..])
    else
      match ReadString(s1)
      case Fail => Fail
      case Got(v, rest) =>
        var s2 := SkipLines(rest);
        if s2 == "" then Fail
        else if s2[0] == ']' then Got([v], s2[1..])
        else if s2[0] == ',' then
          (match ReadElements(s2[1..])
           case Fail => Fail
           case Got(vs, rest) => Got([v] + vs, rest))
        else Fail
  }

  function ReadValue(s: string): (r: Parse<Scalar>)
    ensures r.Got? ==> |r.rest| < |s|
  {
    if s == "" then Fail
    else if s[0] == '"' || s[0] == '\'' then
      (match ReadString(s)
       case Fail => Fail
       case Got(v, rest) => Got(Text(v), rest))
    else if s[0] == '[' then
      (match ReadElements(s[1..])
       case Fail => Fail
       case Got(vs, rest) => Got(Texts(vs), rest))
    else Fail
  }

  function FormatScalar(v: Scalar): string {
    match v
    case Text(text) => Quoted(text)
    case Texts(texts) => FormatStringArray(texts)
  }

  lemma ReadsOneElement(value: string, tail: string)
    requires tail != "" && (tail[0] == ']' || tail[0] == ',')
    ensures var s := Quoted(value) + tail;
      ReadElements(s) ==
        if tail[0] == ']' then Got([value], tail[1..])
        else match ReadElements(tail[1..])
          case Fail => Fail
          case Got(vs, rest) => Got([value] + vs, rest)
  {
    var s := Quoted(value) + tail;
    assert s[0] == '"' && SkipLines(s) == s && SkipLines(tail) == tail;
    ReadsQuoted(value, tail);
  }

  lemma JoinsFirst(values: seq<string>, rest: string)
    requires |values| >= 2
    ensures Join(", ", QuotedAll(values)) + "]" + rest ==
      Quoted(values[0]) + ("," + (" " + (Join(", ", QuotedAll(values[1..])) + "]" + rest)))
  {
    assert QuotedAll(values)[1..] == QuotedAll(values[1..]);
    Regroups(Quoted(values[0]), Join(", ", QuotedAll(values[1..])), rest);
  }

  lemma Regroups(a: string, b: string, rest: string)
    ensures (a + ", " + b) + "]" + rest == a + ("," + (" " + (b + "]" + rest)))
  {
  }

  lemma ReadsFirstOfMore(value: string, after: string)
    ensures ReadElements(Quoted(value) + ("," + (" " + after))) ==
      match ReadElements(after)
      case Fail => Fail
      case Got(vs, rest) => Got([value] + vs, rest)
  {
    ReadsOneElement(value, "," + (" " + after));
    assert ("," + (" " + after))[1..] == " " + after;
    SkipsOneBlank(after);
  }

  lemma ReadsNoElement(rest: string)
    ensures ReadElements(Join(", ", QuotedAll([])) + "]" + rest) == Got([], rest)
  {
    assert Join(", ", QuotedAll([])) + "]" + rest == "]" + rest;
  }

  lemma ReadsLastElement(value: string, rest: string)
    ensures ReadElements(Join(", ", QuotedAll([value])) + "]" + rest) == Got([value], rest)
  {
    assert Join(", ", QuotedAll([value])) + "]" + rest == Quoted(value) + ("]" + rest);
    ReadsOneElement(value, "]" + rest);
  }

  lemma {:induction false} ReadsElements(values: seq<string>, rest: string)
    ensures ReadElements(Join(", ", QuotedAll(values)) + "]" + rest) == Got(values, rest)
    decreases |values|
  {
    if values == [] {
      ReadsNoElement(rest);
    } else if |values| == 1 {
      assert [values[0]] == values;
      ReadsLastElement(values[0], rest);
    } else {
      JoinsFirst(values, rest);
      ReadsFirstOfMore(values[0], Join(", ", QuotedAll(values[1..])) + "]" + rest);
      ReadsElements(values[1..], rest);
      assert [values[0]] + values[1..] == values;
    }
  }

  lemma SkipsOneBlank(s: string)
    ensures ReadElements(" " + s) == ReadElements(s)
  {
    assert (" " + s)[1..] == s;
  }

  lemma ReadsScalar(v: Scalar, rest: string)
    ensures ReadValue(FormatScalar(v) + rest) == Got(v, rest)
  {
    match v
    case Text(text) => ReadsQuoted(text, rest);
    case Texts(texts) =>
      assert (FormatScalar(v) + rest)[1..] == Join(", ", QuotedAll(texts)) + "]" + rest;
      ReadsElements(texts, rest);
  }
}
