/** The per-context credential store: the JSON text of a token bundle, and a store whose backend
    has no delete and can fail for a moment. */
module Credentials {
  import opened Optional
  import opened Scan

  datatype TokenBundle = TokenBundle(refreshToken: Option<string>, issuer: string)

  // ----- json.dumps -----

  /** `\uXXXX` of one UTF-16 code unit. */
  function Unit(n: nat): string
    requires n < 0x1_0000
  {
    "\\u" + Hex4(n)
  }

  /** The surrogate pair of a code point beyond U+FFFF. */
  function High(n: nat): (r: nat)
    requires 0x1_0000 <= n < 0x11_0000
    ensures 0xD800 <= r < 0xDC00
  {
    0xD800 + (n - 0x1_0000) / 0x400
  }

  function Low(n: nat): (r: nat)
    requires 0x1_0000 <= n < 0x11_0000
    ensures 0xDC00 <= r < 0xE000
  {
    0xDC00 + (n - 0x1_0000) % 0x400
  }

  const QUOTE := "\""

  /** ASCII-only output: characters beyond U+FFFF become a surrogate pair. */
  function JsonChar(c: char): string {
    var n := c as int;
    if c == '"' then "\\\""
    else if c == '\\' then "\\\\"
    else if c == '\n' then "\\n"
    else if c == '\r' then "\\r"
    else if c == '\t' then "\\t"
    else if n == 0x0C then "\\f"
    else if n == 0x08 then "\\b"
    else if ' ' <= c <= '~' then [c]
    else if n < 0x1_0000 then Unit(n)
    else Unit(High(n)) + Unit(Low(n))
  }

  function JsonBody(s: string): string {
    if s == "" then "" else JsonChar(s[0]) + JsonBody(s[1..])
  }

  function JsonText(s: string): string { QUOTE + JsonBody(s) + QUOTE }

  function JsonOptional(o: Option<string>): string {
    if o.Some? then JsonText(o.value) else "null"
  }

  function Member(key: string, v: Option<string>): string {
    JsonText(key) + ": " + JsonOptional(v)
  }

  /** `_encode_token_bundle`. */
  function Encode(b: TokenBundle): string {
    "{\"refresh_token\": " + JsonOptional(b.refreshToken) + ", \"issuer\": " + JsonText(b.issuer) + "}"
  }

  // ----- json.loads, for objects of strings and nulls -----

  function ReadLowUnit(s: string, high: nat): (r: Parse<char>)
    requires 0xD800 <= high < 0xDC00
    ensures r.Got? ==> |r.rest| <= |s|
  {
    if |s| < 2 || s[0] != '\\' || s[1] != 'u' then Fail
    else
      match ReadHex(s[2..], 4)
      case Fail => Fail
      case Got(low, rest) =>
        if 0xDC00 <= low < 0xE000 then
          var n := 0x1_0000 + (high - 0xD800) * 0x400 + (low - 0xDC00);
          if n < 0x11_0000 then Got(n as char, rest) else Fail
        else Fail
  }

  /** `\u` and four digits; a high surrogate must be followed by a low one. */
  function ReadUnit(s: string): (r: Parse<char>)
    ensures r.Got? ==> |r.rest| <= |s|
  {
    match ReadHex(s, 4)
    case Fail => Fail
    case Got(n, rest) =>
      if 0xD800 <= n < 0xDC00 then ReadLowUnit(rest, n)
      else if IsScalar(n) then Got(n as char, rest)
      else Fail
  }

  function ReadJsonEscape(s: string): (r: Parse<char>)
    ensures r.Got? ==> |r.rest| < |s|
  {
    if s == "" then Fail
    else if s[0] == '"' || s[0] == '\\' || s[0] == '/' then Got(s[0], s[1..])
    else if s[0] == 'b' then Got('\U{0008}', s[1..])
    else if s[0] == 'f' then Got('\U{000C}', s[1..])
    else if s[0] == 'n' then Got('\n', s[1..])
    else if s[0] == 'r' then Got('\r', s[1..])
    else if s[0] == 't' then Got('\t', s[1..])
    else if s[0] == 'u' then ReadUnit(s[1..])
    else Fail
  }

  function ReadJsonBody(s: string): (r: Parse<string>)
    ensures r.Got? ==> |r.rest| < |s|
    decreases |s|
  {
    if s == "" then Fail
    else if s[0] == '"' then Got("", s[1..])
    else if s[0] == '\\' then
      match ReadJsonEscape(s[1..])
      case Fail => Fail
      case Got(c, rest) => Prepend(c, ReadJsonBody(rest))
    else if s[0] < ' ' then Fail
    else Prepend(s[0], ReadJsonBody(s[1..]))
  }

  function ReadJsonText(s: string): (r: Parse<string>)
    ensures r.Got? ==> |r.rest| < |s|
  {
    if s == "" || s[0] != '"' then Fail else ReadJsonBody(s[1..])
  }

  function ReadJsonValue(s: string): (r: Parse<Option<string>>)
    ensures r.Got? ==> |r.rest| < |s|
  {
    if "null" <= s then Got(None, s[4..])
    else
      match ReadJsonText(s)
      case Fail => Fail
      case Got(v, rest) => Got(Some(v), rest)
  }

  function SkipSpace(s: string): (r: string)
    ensures |r| <= |s| && (r != "" ==> r[0] !in " \t\n\r")
  {
    if s != "" && s[0] in " \t\n\r" then SkipSpace(s[1..]) else s
  }

  type Members = map<string, Option<string>>

  datatype Pair = Pair(key: string, value: Option<string>)

  function ReadMember(s: string): (r: Parse<Pair>)
    ensures r.Got? ==> |r.rest| < |s|
  {
    match ReadJsonText(SkipSpace(s))
    case Fail => Fail
    case Got(key, rest) =>
      var s1 := SkipSpace(rest);
      if s1 == "" || s1[0] != ':' then Fail
      else
        match ReadJsonValue(SkipSpace(s1[1..]))
        case Fail => Fail
        case Got(v, rest) => Got(Pair(key, v), rest)
  }

  /** One member, and whatever follows it; a repeated key takes the later value. */
  function ReadMembers(s: string, acc: Members): (r: Parse<Members>)
    ensures r.Got? ==> |r.rest| < |s|
    decreases |s|
  {
    match ReadMember(s)
    case Fail => Fail
    case Got(m, rest) =>
      var s2 := SkipSpace(rest);
      if s2 != "" && s2[0] == '}' then Got(acc[m.key := m.value], s2[1..])
      else if s2 != "" && s2[0] == ',' then ReadMembers(s2[1..], acc[m.key := m.value])
      else Fail
  }

  datatype Decoded = Bundle(bundle: TokenBundle) | NotJson | MissingKey

  /** `_decode_token_bundle`. */
  function Decode(raw: string): Decoded {
    var s := SkipSpace(raw);
    if s == "" || s[0] != '{' then NotJson
    else
      match ReadMembers(s[1..], map[])
      case Fail => NotJson
      case Got(m, rest) =>
        if SkipSpace(rest) != "" then NotJson
        else if "refresh_token" !in m || "issuer" !in m || m["issuer"] == None then MissingKey
        else Bundle(TokenBundle(m["refresh_token"], m["issuer"].value))
  }

  // ----- the round trip -----

  lemma First(c: char, s: string)
    ensures ([c] + s)[0] == c && ([c] + s)[1..] == s
  {
  }

  lemma Regroup(a: string, b: string, c: string, d: string)
    ensures a + b + c + d == a + (b + (c + d))
    ensures a + b + c == a + (b + c)
  {
  }

  lemma ReadsEscapeThen(s: string, c: char, rest: string)
    requires ReadJsonEscape(s) == Got(c, rest)
    ensures ReadJsonBody(['\\'] + s) == Prepend(c, ReadJsonBody(rest))
  {
    First('\\', s);
  }

  lemma UnitShape(n: nat, rest: string)
    requires n < 0x1_0000
    ensures Unit(n) + rest == ['\\'] + (['u'] + (Hex4(n) + rest))
  {
    Regroup(['\\'], ['u'], Hex4(n), rest);
    assert ['\\'] + ['u'] == "\\u";
  }

  lemma Surrogates(n: nat)
    requires 0x1_0000 <= n < 0x11_0000
    ensures 0x1_0000 + (High(n) - 0xD800) * 0x400 + (Low(n) - 0xDC00) == n
  {
  }

  lemma ReadsLow(high: nat, low: nat, rest: string)
    requires 0xD800 <= high < 0xDC00 <= low < 0xE000
    requires 0x1_0000 + (high - 0xD800) * 0x400 + (low - 0xDC00) < 0x11_0000
    ensures ReadLowUnit(Unit(low) + rest, high) ==
      Got((0x1_0000 + (high - 0xD800) * 0x400 + (low - 0xDC00)) as char, rest)
  {
    UnitShape(low, rest);
    ReadsHex4(low, rest);
    assert (['\\'] + (['u'] + (Hex4(low) + rest)))[2..] == Hex4(low) + rest;
  }

  lemma ReadsUnitPair(high: nat, low: nat, rest: string)
    requires 0xD800 <= high < 0xDC00 <= low < 0xE000
    requires 0x1_0000 + (high - 0xD800) * 0x400 + (low - 0xDC00) < 0x11_0000
    ensures ReadUnit(Hex4(high) + (Unit(low) + rest)) ==
      Got((0x1_0000 + (high - 0xD800) * 0x400 + (low - 0xDC00)) as char, rest)
  {
    ReadsLow(high, low, rest);
    ReadsHex4(high, Unit(low) + rest);
  }

  lemma ReadsEscapeU(s: string)
    requires s != "" && s[0] == 'u'
    ensures ReadJsonEscape(s) == ReadUnit(s[1..])
  {
  }

  lemma ReadsUnitEscape(n: nat, tail: string, c: char, rest: string)
    requires n < 0x1_0000 && ReadUnit(Hex4(n) + tail) == Got(c, rest)
    ensures ReadJsonBody(Unit(n) + tail) == Prepend(c, ReadJsonBody(rest))
  {
    First('u', Hex4(n) + tail);
    ReadsEscapeU(['u'] + (Hex4(n) + tail));
    ReadsEscapeThen(['u'] + (Hex4(n) + tail), c, rest);
    UnitShape(n, tail);
  }

  lemma ReadsPairOf(c: char, high: nat, low: nat, rest: string)
    requires 0xD800 <= high < 0xDC00 <= low < 0xE000
    requires c as int == 0x1_0000 + (high - 0xD800) * 0x400 + (low - 0xDC00)
    ensures ReadJsonBody(Unit(high) + (Unit(low) + rest)) == Prepend(c, ReadJsonBody(rest))
  {
    ReadsUnitPair(high, low, rest);
    ReadsUnitEscape(high, Unit(low) + rest, c, rest);
  }

  lemma ReadsPairText(c: char, text: string, high: nat, low: nat, rest: string)
    requires 0xD800 <= high < 0xDC00 <= low < 0xE000 && text == Unit(high) + Unit(low)
    requires c as int == 0x1_0000 + (high - 0xD800) * 0x400 + (low - 0xDC00)
    ensures ReadJsonBody(text + rest) == Prepend(c, ReadJsonBody(rest))
  {
    ReadsPairOf(c, high, low, rest);
    Regroup(Unit(high), Unit(low), rest, "");
  }

  lemma ReadsPair(c: char, rest: string)
    requires 0x1_0000 <= c as int
    ensures ReadJsonBody(JsonChar(c) + rest) == Prepend(c, ReadJsonBody(rest))
  {
    Surrogates(c as int);
    ReadsPairText(c, JsonChar(c), High(c as int), Low(c as int), rest);
  }

  lemma ReadsUnit(c: char, rest: string)
    requires c as int < 0x1_0000 && JsonChar(c) == Unit(c as int)
    ensures ReadJsonBody(JsonChar(c) + rest) == Prepend(c, ReadJsonBody(rest))
  {
    ReadsHex4(c as int, rest);
    ReadsUnitEscape(c as int, rest, c, rest);
  }

  lemma ReadsPlainJsonChar(c: char, rest: string)
    requires c != '"' && c != '\\' && ' ' <= c <= '~'
    ensures ReadJsonBody([c] + rest) == Prepend(c, ReadJsonBody(rest))
  {
    First(c, rest);
  }

  lemma ReadsShortJsonEscape(k: char, c: char, rest: string)
    requires (k == '"' && c == '"') || (k == '\\' && c == '\\') || (k == 't' && c == '\t')
      || (k == 'n' && c == '\n') || (k == 'r' && c == '\r') || (k == 'f' && c as int == 0x0C) || (k == 'b' && c as int == 0x08)
    ensures ReadJsonBody(['\\', k] + rest) == Prepend(c, ReadJsonBody(rest))
  {
    First(k, rest);
    ReadsEscapeThen([k] + rest, c, rest);
    TwoChars('\\', k, rest);
  }

  predicate HasShortEscape(c: char) {
    c == '"' || c == '\\' || c == '\n' || c == '\r' || c == '\t' || c as int == 0x0C || c as int == 0x08
  }

  lemma ReadsJsonChar(c: char, rest: string)
    ensures ReadJsonBody(JsonChar(c) + rest) == Prepend(c, ReadJsonBody(rest))
  {
    if HasShortEscape(c) {
      ReadsShortJsonEscape(JsonChar(c)[1], c, rest);
    } else if ' ' <= c <= '~' {
      ReadsPlainJsonChar(c, rest);
    } else if c as int < 0x1_0000 {
      ReadsUnit(c, rest);
    } else {
      ReadsPair(c, rest);
    }
  }

  lemma {:induction false} ReadsJsonBody(s: string, rest: string)
    ensures ReadJsonBody(JsonBody(s) + (QUOTE + rest)) == Got(s, rest)
    decreases |s|
  {
    if s == "" {
      assert JsonBody(s) + (QUOTE + rest) == QUOTE + rest;
    } else {
      var tail := JsonBody(s[1..]) + (QUOTE + rest);
      Regroup(JsonChar(s[0]), JsonBody(s[1..]), QUOTE + rest, "");
      ReadsJsonChar(s[0], tail);
      ReadsJsonBody(s[1..], rest);
      assert [s[0]] + s[1..] == s;
    }
  }

  lemma ReadsJsonText(s: string, rest: string)
    ensures ReadJsonText(JsonText(s) + rest) == Got(s, rest)
    ensures JsonText(s) + rest == ['"'] + (JsonBody(s) + (QUOTE + rest))
  {
    Regroup(QUOTE, JsonBody(s), QUOTE, rest);
    First('"', JsonBody(s) + (QUOTE + rest));
    ReadsJsonBody(s, rest);
  }

  lemma ReadsJsonOptional(o: Option<string>, rest: string)
    ensures ReadJsonValue(JsonOptional(o) + rest) == Got(o, rest)
    ensures SkipSpace(JsonOptional(o) + rest) == JsonOptional(o) + rest
  {
    if o.Some? {
      ReadsJsonText(o.value, rest);
    } else {
      assert ("null" + rest)[4..] == rest;
    }
  }

  lemma SkipsSpaceBefore(s: string)
    ensures SkipSpace([' '] + s) == SkipSpace(s)
  {
    First(' ', s);
  }

  lemma ReadsColon(value: string)
    requires SkipSpace(value) == value
    ensures SkipSpace([':'] + ([' '] + value)) == [':'] + ([' '] + value)
    ensures ([':'] + ([' '] + value))[1..] == [' '] + value
    ensures SkipSpace([' '] + value) == value
  {
    First(':', [' '] + value);
    SkipsSpaceBefore(value);
  }

  lemma ReadsOneMember(s: string, key: string, value: string, v: Option<string>, after: string)
    requires s != "" && s[0] == '"' && ReadJsonText(s) == Got(key, [':'] + ([' '] + value))
    requires SkipSpace(value) == value && ReadJsonValue(value) == Got(v, after)
    ensures ReadMember(s) == Got(Pair(key, v), after)
  {
    ReadsColon(value);
    assert SkipSpace(s) == s;
  }

  lemma MemberSteps(s: string, m: Pair, end: char, rest: string, acc: Members)
    requires ReadMember(s) == Got(m, [end] + rest) && (end == '}' || end == ',')
    ensures ReadMembers(s, acc) ==
      if end == '}' then Got(acc[m.key := m.value], rest) else ReadMembers(rest, acc[m.key := m.value])
  {
    First(end, rest);
    assert SkipSpace([end] + rest) == [end] + rest;
  }

  /** One member as `json.dumps` writes it, with what follows its value. */
  lemma ReadsMember(key: string, v: Option<string>, end: char, rest: string, acc: Members)
    requires end == '}' || end == ','
    ensures ReadMembers(Member(key, v) + ([end] + rest), acc) ==
      if end == '}' then Got(acc[key := v], rest) else ReadMembers(rest, acc[key := v])
  {
    var after := [end] + rest;
    var value := JsonOptional(v) + after;
    var s := JsonText(key) + ([':'] + ([' '] + value));
    ReadsJsonOptional(v, after);
    ReadsJsonText(key, [':'] + ([' '] + value));
    ReadsOneMember(s, key, value, v, after);
    MemberSteps(s, Pair(key, v), end, rest, acc);
    MemberShape(key, v, after);
  }

  lemma MemberShape(key: string, v: Option<string>, after: string)
    ensures Member(key, v) + after == JsonText(key) + ([':'] + ([' '] + (JsonOptional(v) + after)))
  {
    Regroup(JsonText(key), ": ", JsonOptional(v), after);
    TwoChars(':', ' ', JsonOptional(v) + after);
  }

  lemma TwoChars(a: char, b: char, s: string)
    ensures [a, b] + s == [a] + ([b] + s)
  {
  }

  lemma ReadsLastMember(key: string, issuer: string, m: Members)
    ensures ReadMembers([' '] + (Member(key, Some(issuer)) + "}"), m) == Got(m[key := Some(issuer)], "")
  {
    assert ['}'] + "" == "}";
    ReadsMember(key, Some(issuer), '}', "", m);
    SpaceIsNothing(Member(key, Some(issuer)) + "}", m);
  }

  lemma ReadsBothMembers(k1: string, refresh: Option<string>, k2: string, issuer: string)
    ensures ReadMembers(Member(k1, refresh) + (", " + (Member(k2, Some(issuer)) + "}")), map[])
      == Got(map[k1 := refresh][k2 := Some(issuer)], "")
  {
    var last := Member(k2, Some(issuer)) + "}";
    TwoChars(',', ' ', last);
    ReadsMember(k1, refresh, ',', [' '] + last, map[]);
    ReadsLastMember(k2, issuer, map[k1 := refresh]);
  }

  lemma SpaceIsNothing(s: string, acc: Members)
    ensures ReadMembers([' '] + s, acc) == ReadMembers(s, acc)
  {
    First(' ', s);
    assert SkipSpace([' '] + s) == SkipSpace(s);
    assert ReadMember([' '] + s) == ReadMember(s);
  }

  lemma DecodesMembers(x: string, b: TokenBundle)
    requires ReadMembers(x, map[]) == Got(map["refresh_token" := b.refreshToken]["issuer" := Some(b.issuer)], "")
    ensures Decode(['{'] + x) == Bundle(b)
  {
    First('{', x);
  }

  predicate IsPlain(c: char) { 'a' <= c <= 'z' || c == '_' }

  lemma {:induction false} PlainKey(key: string)
    requires forall c :: c in key ==> IsPlain(c)
    ensures JsonBody(key) == key
  {
    if key != "" {
      PlainKey(key[1..]);
      assert IsPlain(key[0]);
      assert key == [key[0]] + key[1..];
    }
  }

  lemma KeyLiterals()
    ensures "{\"refresh_token\": " == "{" + ("\"" + "refresh_token" + "\"") + ": "
    ensures ", \"issuer\": " == ", " + ("\"" + "issuer" + "\"") + ": "
  {
  }

  lemma TwoMembers(k1: string, v1: string, k2: string, v2: string)
    ensures ("{" + k1 + ": ") + v1 + (", " + k2 + ": ") + v2 + "}" ==
      ['{'] + ((k1 + ": " + v1) + (", " + ((k2 + ": " + v2) + "}")))
  {
  }

  /** `x` is what an encoded bundle holds after its opening brace. */
  lemma EncodedMembers(b: TokenBundle, k1: string, k2: string) returns (x: string)
    requires forall c :: c in k1 || c in k2 ==> IsPlain(c)
    requires "{\"refresh_token\": " == "{" + ("\"" + k1 + "\"") + ": "
    requires ", \"issuer\": " == ", " + ("\"" + k2 + "\"") + ": "
    ensures Encode(b) == ['{'] + x
    ensures ReadMembers(x, map[]) == Got(map[k1 := b.refreshToken][k2 := Some(b.issuer)], "")
  {
    PlainKey(k1);
    PlainKey(k2);
    x := Member(k1, b.refreshToken) + (", " + (Member(k2, Some(b.issuer)) + "}"));
    TwoMembers(JsonText(k1), JsonOptional(b.refreshToken), JsonText(k2), JsonText(b.issuer));
    ReadsBothMembers(k1, b.refreshToken, k2, b.issuer);
  }

  /** Decoding gives back the bundle that was encoded, and no encoded bundle is the empty string
      that stands for "nothing stored". */
  lemma DecodesEncoded(b: TokenBundle)
    ensures Decode(Encode(b)) == Bundle(b)
    ensures Encode(b) != ""
  {
    KeyLiterals();
    var x := EncodedMembers(b, "refresh_token", "issuer");
    DecodesMembers(x, b);
  }
}
