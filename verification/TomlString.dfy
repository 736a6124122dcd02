/** TOML basic strings: the writer of the Codex document and the reader of the TOML standard, version 1.0. */
module TomlString {
  import opened Common

  // ---------------------------------------------------------------- writing

  function HexDigit(n: nat): char
    requires n < 16
  {
    "0123456789ABCDEF"[n]
  }

  predicate Control(c: char) {
    (c as int) < 0x20 || c as int == 0x7F
  }

  function QuoteChar(c: char): string {
    if c == '"' then "\\\""
    else if c == '\\' then "\\\\"
    else if c as int == 8 then "\\b"
    else if c == '\t' then "\\t"
    else if c == '\n' then "\\n"
    else if c as int == 12 then "\\f"
    else if c == '\r' then "\\r"
    else if Control(c) then "\\u00" + [HexDigit(c as int / 16), HexDigit(c as int % 16)]
    else [c]
  }

  function QuoteBody(s: string): string {
    if s == "" then "" else QuoteChar(s[0]) + QuoteBody(s[1..])
  }

  /** `_toml_basic_string`. */
  function Quote(s: string): string {
    "\"" + QuoteBody(s) + "\""
  }

  // ---------------------------------------------------------------- reading

  function HexValue(c: char): Option<nat> {
    if '0' <= c <= '9' then Some(c as int - '0' as int)
    else if 'A' <= c <= 'F' then Some(c as int - 'A' as int + 10)
    else if 'a' <= c <= 'f' then Some(c as int - 'a' as int + 10)
    else None
  }

  function HexNumber(s: string): Option<nat> {
    if s == "" then Some(0)
    else
      match (HexNumber(s[..|s| - 1]), HexValue(s[|s| - 1]))
      case (Some(high), Some(low)) => Some(16 * high + low)
      case _ => None
  }

  predicate Scalar(n: nat) {
    n < 0xD800 || 0xE000 <= n < 0x110000
  }

  /** The character an escape of `digits` hexadecimal digits stands for. */
  function Escaped(digits: string): Option<char> {
    match HexNumber(digits)
    case Some(n) => if Scalar(n) then Some(n as char) else None
    case None => None
  }

  function ShortEscape(c: char): Option<char> {
    if c == 'b' then Some(8 as char)
    else if c == 't' then Some('\t')
    else if c == 'n' then Some('\n')
    else if c == 'f' then Some(12 as char)
    else if c == 'r' then Some('\r')
    else if c == '"' || c == '\\' then Some(c)
    else None
  }

  datatype Token = Char(c: char, length: nat) | Close | Malformed

  /** The first token of the text after the opening quote. */
  function FirstToken(s: string): (token: Token)
    ensures token.Char? ==> 0 < token.length <= |s|
    ensures token.Close? ==> |s| > 0
  {
    if s == "" then Malformed
    else if s[0] == '"' then Close
    else if s[0] == '\\' then
      if |s| < 2 then Malformed
      else if s[1] == 'u' then
        if |s| >= 6 && Escaped(s[2..6]).Some? then Char(Escaped(s[2..6]).value, 6) else Malformed
      else if s[1] == 'U' then
        if |s| >= 10 && Escaped(s[2..10]).Some? then Char(Escaped(s[2..10]).value, 10) else Malformed
      else if ShortEscape(s[1]).Some? then Char(ShortEscape(s[1]).value, 2) else Malformed
    else if Control(s[0]) && s[0] != '\t' then Malformed
    else Char(s[0], 1)
  }

  /** The string up to the closing quote, and the text after it. */
  function ReadBody(s: string): Option<(string, string)> {
    match FirstToken(s)
    case Malformed => None
    case Close => Some(("", s[1..]))
    case Char(c, length) =>
      match ReadBody(s[length..])
      case None => None
      case Some((text, rest)) => Some(([c] + text, rest))
  }

  function ReadBasicString(s: string): Option<(string, string)> {
    if s != "" && s[0] == '"' then ReadBody(s[1..]) else None
  }

  // ---------------------------------------------------------------- round trip

  lemma ControlEscape(c: char, rest: string)
    requires Control(c)
    ensures Escaped(("\\u00" + [HexDigit(c as int / 16), HexDigit(c as int % 16)] + rest)[2..6]) == Some(c)
  {
    var high, low := c as int / 16, c as int % 16;
    var digits := "00" + [HexDigit(high), HexDigit(low)];
    assert ("\\u00" + [HexDigit(high), HexDigit(low)] + rest)[2..6] == digits;
    assert digits[..3] == "00" + [HexDigit(high)] && digits[..3][..2] == "00" && "00"[..1] == "0" && "0"[..0] == "";
    assert HexNumber("") == Some(0);
    assert HexNumber("0") == Some(0);
    assert HexNumber("00") == Some(0);
    assert HexValue(HexDigit(high)) == Some(high) && HexValue(HexDigit(low)) == Some(low);
    assert HexNumber(digits[..3]) == Some(high);
    assert HexNumber(digits) == Some(16 * high + low);
  }

  lemma FirstTokenOfQuoted(c: char, rest: string)
    ensures FirstToken(QuoteChar(c) + rest) == Char(c, |QuoteChar(c)|)
    ensures (QuoteChar(c) + rest)[|QuoteChar(c)|..] == rest
  {
    if Control(c) {
      ControlEscape(c, rest);
    }
  }

  lemma {:induction false} BodyRoundTrip(s: string, rest: string)
    ensures ReadBody(QuoteBody(s) + ("\"" + rest)) == Some((s, rest))
  {
    if s == "" {
      assert QuoteBody(s) + ("\"" + rest) == "\"" + rest;
      assert ("\"" + rest)[1..] == rest;
    } else {
      var tail := QuoteBody(s[1..]) + ("\"" + rest);
      assert QuoteBody(s) + ("\"" + rest) == QuoteChar(s[0]) + tail;
      FirstTokenOfQuoted(s[0], tail);
      BodyRoundTrip(s[1..], rest);
      assert [s[0]] + s[1..] == s;
    }
  }

  /** Every string reads back as itself, whatever text follows it. */
  lemma StringRoundTrip(s: string, rest: string)
    ensures ReadBasicString(Quote(s) + rest) == Some((s, rest))
  {
    BodyRoundTrip(s, rest);
    assert (Quote(s) + rest)[1..] == QuoteBody(s) + ("\"" + rest);
  }

  /** A quoted string stays on its line, so no value can open a table or define a key. */
  lemma {:induction false} QuotedStaysOnItsLine(s: string)
    ensures forall c | c in Quote(s) :: !Control(c)
  {
    BodyHasNoControl(s);
  }

  lemma {:induction false} BodyHasNoControl(s: string)
    ensures forall c | c in QuoteBody(s) :: !Control(c)
  {
    if s != "" {
      BodyHasNoControl(s[1..]);
      assert forall c | c in QuoteChar(s[0]) :: !Control(c);
    }
  }
}
