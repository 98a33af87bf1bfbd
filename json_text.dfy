/**
 * JSON string literals as `JSON.stringify` writes them (QuoteJSONString in ECMA-262) and
 * as `JSON.parse` reads them back. Dafny characters are Unicode scalar values, so the lone
 * surrogates that QuoteJSONString also escapes cannot occur here.
 */
module JsonText {
  import opened Wrappers
  import opened Sequences

  const HexDigits: string := "0123456789abcdef"

  /** The escape QuoteJSONString writes for one character. */
  function EscapeChar(c: char): (r: string)
    ensures |r| >= 1 && forall i | 0 <= i < |r| :: r[i] as int >= 0x20
  {
    if c == '"' then "\\\""
    else if c == '\\' then "\\\\"
    else if c == '\U{0008}' then "\\b"
    else if c == '\U{000C}' then "\\f"
    else if c == '\n' then "\\n"
    else if c == '\r' then "\\r"
    else if c == '\t' then "\\t"
    else if (c as int) < 0x20 then "\\u00" + [HexDigits[c as int / 16], HexDigits[c as int % 16]]
    else [c]
  }

  /** The body of the literal `JSON.stringify(s)`, without its quotes. */
  function Escape(s: string): (r: string)
    ensures |r| >= |s|
    ensures forall i | 0 <= i < |r| :: r[i] as int >= 0x20
  {
    if s == [] then "" else EscapeChar(s[0]) + Escape(s[1..])
  }

  /** `JSON.stringify(s)` for a string `s`. */
  function Quote(s: string): string {
    "\"" + Escape(s) + "\""
  }

  function HexValue(c: char): (r: Option<nat>)
    ensures r.Some? ==> r.value < 16
  {
    if '0' <= c <= '9' then Some(c as int - '0' as int)
    else if 'a' <= c <= 'f' then Some(c as int - 'a' as int + 10)
    else if 'A' <= c <= 'F' then Some(c as int - 'A' as int + 10)
    else None
  }

  /** The value of four hexadecimal digits, if they are digits. */
  function Hex4(t: string): (r: Option<nat>)
    requires |t| == 4
    ensures r.Some? ==> r.value < 0x10000
  {
    match (HexValue(t[0]), HexValue(t[1]), HexValue(t[2]), HexValue(t[3]))
    case (Some(a), Some(b), Some(c), Some(d)) => Some(((a * 16 + b) * 16 + c) * 16 + d)
    case _ => None
  }

  /** Puts `c` in front of the string read, keeping what follows the literal. */
  function Prepend(c: char, r: Option<(string, string)>): Option<(string, string)> {
    match r
    case Some((v, rest)) => Some(([c] + v, rest))
    case None => None
  }

  /** The character a two-character escape `\x` stands for. */
  function ShortEscape(x: char): Option<char> {
    if x == '"' then Some('"')
    else if x == '\\' then Some('\\')
    else if x == '/' then Some('/')
    else if x == 'b' then Some('\U{0008}')
    else if x == 'f' then Some('\U{000C}')
    else if x == 'n' then Some('\n')
    else if x == 'r' then Some('\r')
    else if x == 't' then Some('\t')
    else None
  }

  /**
   * What `JSON.parse` reads from the text after a string literal's opening quote: the string
   * up to the closing quote, and the text after that quote; `None` where it throws. A `\u`
   * escape of a surrogate half (a pair stands for a character outside the BMP) is refused,
   * because a Dafny character cannot hold half of a pair.
   */
  function ReadLiteral(t: string): (r: Option<(string, string)>)
    decreases |t|
  {
    if t == [] then None
    else if t[0] == '"' then Some(("", t[1..]))
    else if t[0] == '\\' then
      if |t| < 2 then None
      else match ShortEscape(t[1])
        case Some(c) => Prepend(c, ReadLiteral(t[2..]))
        case None =>
          if t[1] == 'u' && |t| >= 6 then
            match Hex4(t[2..6])
            case Some(code) =>
              if 0xD800 <= code < 0xE000 then None else Prepend(code as char, ReadLiteral(t[6..]))
            case None => None
          else None
    else if (t[0] as int) < 0x20 then None
    else Prepend(t[0], ReadLiteral(t[1..]))
  }

  /** What `JSON.parse` makes of the literal with body `t`: the literal must end the text. */
  function Unescape(t: string): Option<string> {
    match ReadLiteral(t + "\"")
    case Some((v, rest)) => if rest == "" then Some(v) else None
    case None => None
  }

  lemma ReadChar(c: char, rest: string)
    ensures ReadLiteral(EscapeChar(c) + rest) == Prepend(c, ReadLiteral(rest))
  {
    var e := EscapeChar(c) + rest;
    if (c as int) < 0x20 && c != '\U{0008}' && c != '\U{000C}' && c != '\n' && c != '\r' && c != '\t' {
      ReadControl(c, rest);
    } else if c == '"' || c == '\\' || c == '\U{0008}' || c == '\U{000C}' || c == '\n' || c == '\r' || c == '\t' {
      assert e[2..] == rest;
    } else {
      assert e[1..] == rest;
    }
  }

  /** A control character without a short escape is written as `\u00` and two hex digits. */
  lemma ReadControl(c: char, rest: string)
    requires (c as int) < 0x20 && c != '\U{0008}' && c != '\U{000C}' && c != '\n' && c != '\r' && c != '\t'
    ensures ReadLiteral(EscapeChar(c) + rest) == Prepend(c, ReadLiteral(rest))
  {
    var hi, lo := c as int / 16, c as int % 16;
    var e := EscapeChar(c) + rest;
    assert e == "\\u00" + [HexDigits[hi], HexDigits[lo]] + rest;
    assert Hex4(e[2..6]) == Some(c as int) by {
      assert e[2..6] == ['0', '0', HexDigits[hi], HexDigits[lo]];
      HexDigitValue(hi);
      HexDigitValue(lo);
    }
    assert e[6..] == rest;
  }

  lemma HexDigitValue(d: nat)
    requires d < 16
    ensures HexValue(HexDigits[d]) == Some(d)
  {
  }

  /** Reading a written literal gives back its string and stops at its closing quote. */
  lemma {:induction false} ReadEscape(s: string, rest: string)
    ensures ReadLiteral(Escape(s) + "\"" + rest) == Some((s, rest))
  {
    var t := Escape(s) + "\"" + rest;
    if s == [] {
      assert t == "\"" + rest && t[1..] == rest;
    } else {
      var tail := Escape(s[1..]) + "\"" + rest;
      assert t == EscapeChar(s[0]) + tail by {
        AppendAssoc(EscapeChar(s[0]), Escape(s[1..]), "\"");
        AppendAssoc(EscapeChar(s[0]), Escape(s[1..]) + "\"", rest);
      }
      ReadChar(s[0], tail);
      ReadEscape(s[1..], rest);
      assert [s[0]] + s[1..] == s;
    }
  }

  /** `JSON.parse(JSON.stringify(s)) === s`. */
  lemma UnescapeEscape(s: string)
    ensures Unescape(Escape(s)) == Some(s)
  {
    ReadEscape(s, "");
    assert Escape(s) + "\"" + "" == Escape(s) + "\"";
  }
}
