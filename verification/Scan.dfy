/** What the readers of written text share: a parsed value with the text after it, and the
    hexadecimal digits of an escaped code point. */
module Scan {
  import opened Optional

  /** A parsed value and the text after it. */
  datatype Parse<+T> = Fail | Got(value: T, rest: string)

  function Prepend(c: char, p: Parse<string>): Parse<string> {
    match p
    case Fail => Fail
    case Got(value, rest) => Got([c] + value, rest)
  }

  const HEX: string := "0123456789abcdef"

  function HexDigit(n: nat): char
    requires n < 16
  {
    HEX[n]
  }

  /** Four lower-case hexadecimal digits, zero-padded. */
  function Hex4(n: nat): string
    requires n < 0x1_0000
  {
    [HexDigit(n / 0x1000), HexDigit(n / 0x100 % 16), HexDigit(n / 16 % 16), HexDigit(n % 16)]
  }

  function HexValue(c: char): Option<nat> {
    if '0' <= c <= '9' then Some((c as int - '0' as int) as nat)
    else if 'a' <= c <= 'f' then Some((c as int - 'a' as int + 10) as nat)
    else if 'A' <= c <= 'F' then Some((c as int - 'A' as int + 10) as nat)
    else None
  }

  /** The number that hexadecimal digits spell. */
  function HexOf(digits: string, acc: nat): Option<nat> {
    if digits == "" then Some(acc)
    else if HexValue(digits[0]) == None then None
    else HexOf(digits[1..], acc * 16 + HexValue(digits[0]).value)
  }

  function ReadHex(s: string, digits: nat): (r: Parse<nat>)
    ensures r.Got? ==> |r.rest| == |s| - digits
  {
    if |s| < digits || HexOf(s[..digits], 0) == None then Fail
    else Got(HexOf(s[..digits], 0).value, s[digits..])
  }

  predicate IsScalar(n: nat) { n < 0xD800 || 0xE000 <= n < 0x11_0000 }

  lemma HexDigitValue(n: nat)
    requires n < 16
    ensures HexValue(HexDigit(n)) == Some(n)
  {
  }

  lemma SpellsDigit(d: nat, more: string, acc: nat)
    requires d < 16
    ensures HexOf([HexDigit(d)] + more, acc) == HexOf(more, acc * 16 + d)
  {
    HexDigitValue(d);
    assert ([HexDigit(d)] + more)[1..] == more;
  }

  lemma FourDigits(n: nat)
    requires n < 0x1_0000
    ensures ((n / 0x1000 * 16 + n / 0x100 % 16) * 16 + n / 16 % 16) * 16 + n % 16 == n
  {
    assert n / 0x1000 == n / 0x100 / 16 && n / 0x100 == n / 16 / 16;
  }

  lemma SpellsTwo(a: nat, b: nat, more: string, acc: nat)
    requires a < 16 && b < 16
    ensures HexOf([HexDigit(a)] + ([HexDigit(b)] + more), acc) == HexOf(more, (acc * 16 + a) * 16 + b)
  {
    SpellsDigit(a, [HexDigit(b)] + more, acc);
    SpellsDigit(b, more, acc * 16 + a);
  }

  lemma SpellsFour(a: nat, b: nat, c: nat, d: nat)
    requires a < 16 && b < 16 && c < 16 && d < 16
    ensures HexOf([HexDigit(a), HexDigit(b), HexDigit(c), HexDigit(d)], 0) == Some(((a * 16 + b) * 16 + c) * 16 + d)
  {
    var last := [HexDigit(c)] + ([HexDigit(d)] + "");
    assert [HexDigit(a), HexDigit(b), HexDigit(c), HexDigit(d)] == [HexDigit(a)] + ([HexDigit(b)] + last);
    SpellsTwo(a, b, last, 0);
    SpellsTwo(c, d, "", a * 16 + b);
  }

  lemma SpellsHex4(n: nat)
    requires n < 0x1_0000
    ensures HexOf(Hex4(n), 0) == Some(n)
  {
    SpellsFour(n / 0x1000, n / 0x100 % 16, n / 16 % 16, n % 16);
    FourDigits(n);
  }

  lemma ReadsHex(digits: string, rest: string)
    ensures ReadHex(digits + rest, |digits|) ==
      if HexOf(digits, 0) == None then Fail else Got(HexOf(digits, 0).value, rest)
  {
    assert (digits + rest)[..|digits|] == digits && (digits + rest)[|digits|..] == rest;
  }

  lemma ReadsHex4(n: nat, rest: string)
    requires n < 0x1_0000
    ensures ReadHex(Hex4(n) + rest, 4) == Got(n, rest)
  {
    SpellsHex4(n);
    ReadsHex(Hex4(n), rest);
  }
}
