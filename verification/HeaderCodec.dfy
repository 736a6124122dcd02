/** Values of mirrored tool parameters as HTTP header text: `_modern_header` (streamable_http_stdio.py)
    and `_decode_modern_header` (stdio_http_facade.py). Base64 is section 4 of RFC 4648. */
module HeaderCodec {
  import opened Common
  import opened MessageClass

  datatype Decoded = Value(text: string) | Mismatch

  // ---------------------------------------------------------------- UTF-8

  function Continuation(n: nat): byte
    requires n < 64
  {
    (128 + n) as byte
  }

  function EncodeChar(c: char): (r: Bytes)
    ensures 1 <= |r| <= 4
  {
    var n := c as int;
    if n < 0x80 then [n as byte]
    else if n < 0x800 then [(192 + n / 64) as byte, Continuation(n % 64)]
    else if n < 0x1_0000 then [(224 + n / 64 / 64) as byte, Continuation(n / 64 % 64), Continuation(n % 64)]
    else [(240 + n / 64 / 64 / 64) as byte, Continuation(n / 64 / 64 % 64), Continuation(n / 64 % 64), Continuation(n % 64)]
  }

  function EncodeUtf8(s: string): Bytes {
    if s == "" then [] else EncodeChar(s[0]) + EncodeUtf8(s[1..])
  }

  /** The payload of a continuation byte at `k`, if there is one. */
  function ContinuationAt(b: Bytes, k: nat): Option<nat> {
    if k < |b| && 128 <= b[k] < 192 then Some(b[k] as int - 128) else None
  }

  function CharOf(n: nat, low: nat): Option<char> {
    if n < low || 0xD800 <= n < 0xE000 || n > 0x10_FFFF then None else Some(n as char)
  }

  /** The first character of strict UTF-8 and its length; nothing for malformed input. */
  function DecodeChar(b: Bytes): Option<(char, nat)>
    requires b != []
  {
    var first := b[0] as int;
    var c1, c2, c3 := ContinuationAt(b, 1), ContinuationAt(b, 2), ContinuationAt(b, 3);
    if first < 0x80 then Some((first as char, 1))
    else if 192 <= first < 224 && c1.Some? then
      var c := CharOf((first - 192) * 64 + c1.value, 0x80);
      if c.Some? then Some((c.value, 2)) else None
    else if 224 <= first < 240 && c1.Some? && c2.Some? then
      var c := CharOf(((first - 224) * 64 + c1.value) * 64 + c2.value, 0x800);
      if c.Some? then Some((c.value, 3)) else None
    else if 240 <= first < 248 && c1.Some? && c2.Some? && c3.Some? then
      var c := CharOf((((first - 240) * 64 + c1.value) * 64 + c2.value) * 64 + c3.value, 0x1_0000);
      if c.Some? then Some((c.value, 4)) else None
    else None
  }

  function DecodeUtf8(b: Bytes): Option<string> {
    if b == [] then Some("")
    else
      var first := DecodeChar(b);
      if first.None? || first.value.1 > |b| || first.value.1 == 0 then None
      else
        var rest := DecodeUtf8(b[first.value.1..]);
        if rest.None? then None else Some([first.value.0] + rest.value)
  }

  // ---------------------------------------------------------------- base64

  function Symbol(n: nat): char
    requires n < 64
  {
    if n < 26 then 'A' + n as char
    else if n < 52 then 'a' + (n - 26) as char
    else if n < 62 then '0' + (n - 52) as char
    else if n == 62 then '+'
    else '/'
  }

  function SymbolValue(c: char): (v: Option<nat>)
    ensures v.Some? ==> v.value < 64
  {
    if 'A' <= c <= 'Z' then Some(c as int - 'A' as int)
    else if 'a' <= c <= 'z' then Some(c as int - 'a' as int + 26)
    else if '0' <= c <= '9' then Some(c as int - '0' as int + 52)
    else if c == '+' then Some(62)
    else if c == '/' then Some(63)
    else None
  }

  function EncodeBase64(b: Bytes): string {
    if |b| == 0 then ""
    else if |b| == 1 then
      var x := b[0] as int;
      [Symbol(x / 4), Symbol(x % 4 * 16), '=', '=']
    else if |b| == 2 then
      var x, y := b[0] as int, b[1] as int;
      [Symbol(x / 4), Symbol(x % 4 * 16 + y / 16), Symbol(y % 16 * 4), '=']
    else
      var x, y, z := b[0] as int, b[1] as int, b[2] as int;
      [Symbol(x / 4), Symbol(x % 4 * 16 + y / 16), Symbol(y % 16 * 4 + z / 64), Symbol(z % 64)] + EncodeBase64(b[3..])
  }

  /** Strict decoding: only the alphabet, padding only at the end; the spare bits before padding are ignored. */
  function DecodeBase64(s: string): Option<Bytes> {
    if s == "" then Some([])
    else if |s| < 4 || SymbolValue(s[0]).None? || SymbolValue(s[1]).None? then None
    else
      var v0, v1 := SymbolValue(s[0]).value, SymbolValue(s[1]).value;
      if s[2] == '=' then
        if s[2..] == "==" then Some([(v0 * 4 + v1 / 16) as byte]) else None
      else if SymbolValue(s[2]).None? then None
      else
        var v2 := SymbolValue(s[2]).value;
        var x, y := (v0 * 4 + v1 / 16) as byte, (v1 % 16 * 16 + v2 / 4) as byte;
        if s[3] == '=' then
          if |s| == 4 then Some([x, y]) else None
        else if SymbolValue(s[3]).None? then None
        else
          var rest := DecodeBase64(s[4..]);
          if rest.None? then None
          else Some([x, y, (v2 % 4 * 64 + SymbolValue(s[3]).value) as byte] + rest.value)
  }

  // ---------------------------------------------------------------- the header forms

  const PREFIX := "=?base64?"
  const SUFFIX := "?="

  /** Python's `str.isspace` for one character. */
  predicate IsSpace(c: char) {
    var n := c as int;
    9 <= n <= 13 || 28 <= n <= 32 || n == 0x85 || n == 0xA0 || n == 0x1680 || 0x2000 <= n <= 0x200A
    || n == 0x2028 || n == 0x2029 || n == 0x202F || n == 0x205F || n == 0x3000
  }

  predicate Trimmed(s: string) {
    s == "" || (!IsSpace(s[0]) && !IsSpace(s[|s| - 1]))
  }

  predicate Visible(s: string) {
    forall k :: 0 <= k < |s| ==> 32 <= s[k] as int <= 126
  }

  predicate LooksWrapped(s: string) {
    PREFIX <= s && |s| >= |SUFFIX| && s[|s| - |SUFFIX|..] == SUFFIX
  }

  function ModernHeader(value: string): string {
    if !Trimmed(value) || !Visible(value) || LooksWrapped(value)
    then PREFIX + EncodeBase64(EncodeUtf8(value)) + SUFFIX
    else value
  }

  function DecodeModernHeader(value: string): Decoded {
    if value == "" then Value("")
    else if !Trimmed(value) || !Visible(value) then Mismatch
    else if LooksWrapped(value) then
      // The slice `value[9:-2]`, empty when the two ends overlap.
      var body := if |value| >= |PREFIX| + |SUFFIX| then value[|PREFIX|..|value| - |SUFFIX|] else "";
      var bytes := DecodeBase64(body);
      if bytes.None? then Mismatch
      else
        var text := DecodeUtf8(bytes.value);
        if text.None? then Mismatch else Value(text.value)
    else Value(value)
  }

  // ---------------------------------------------------------------- round trips

  lemma SplitBy64(n: nat)
    ensures n == n / 64 * 64 + n % 64
  {
  }

  lemma DecodeCharOfEncodeChar(c: char, rest: Bytes)
    ensures EncodeChar(c) + rest != []
    ensures DecodeChar(EncodeChar(c) + rest) == Some((c, |EncodeChar(c)|))
  {
    var n := c as int;
    var code := EncodeChar(c);
    var b := code + rest;
    assert forall k :: 0 <= k < |code| ==> b[k] == code[k];
    SplitBy64(n);
    SplitBy64(n / 64);
    SplitBy64(n / 64 / 64);
  }

  lemma {:induction false} Utf8RoundTrip(s: string)
    ensures DecodeUtf8(EncodeUtf8(s)) == Some(s)
  {
    if s != "" {
      var first, rest := EncodeChar(s[0]), EncodeUtf8(s[1..]);
      DecodeCharOfEncodeChar(s[0], rest);
      Utf8RoundTrip(s[1..]);
      assert (first + rest)[|first|..] == rest;
      assert [s[0]] + s[1..] == s;
    }
  }

  lemma SymbolRoundTrip(n: nat)
    requires n < 64
    ensures SymbolValue(Symbol(n)) == Some(n) && Symbol(n) != '=' && 33 <= Symbol(n) as int <= 126
  {
  }

  lemma Sextets(x: nat, y: nat, z: nat)
    requires x < 256 && y < 256 && z < 256
    ensures var v0, v1, v2, v3 := x / 4, x % 4 * 16 + y / 16, y % 16 * 4 + z / 64, z % 64;
            && v0 < 64 && v1 < 64 && v2 < 64 && v3 < 64
            && v0 * 4 + v1 / 16 == x && v1 % 16 * 16 + v2 / 4 == y && v2 % 4 * 64 + v3 == z
  {
  }

  lemma DecodeGroup(v0: nat, v1: nat, v2: nat, v3: nat, rest: string)
    requires v0 < 64 && v1 < 64 && v2 < 64 && v3 < 64
    ensures DecodeBase64([Symbol(v0), Symbol(v1), Symbol(v2), Symbol(v3)] + rest)
            == if DecodeBase64(rest).None? then None
               else Some([(v0 * 4 + v1 / 16) as byte, (v1 % 16 * 16 + v2 / 4) as byte, (v2 % 4 * 64 + v3) as byte]
                         + DecodeBase64(rest).value)
  {
    SymbolRoundTrip(v0);
    SymbolRoundTrip(v1);
    SymbolRoundTrip(v2);
    SymbolRoundTrip(v3);
    var s := [Symbol(v0), Symbol(v1), Symbol(v2), Symbol(v3)] + rest;
    assert s[4..] == rest;
  }

  lemma DecodePadded(v0: nat, v1: nat, v2: nat)
    requires v0 < 64 && v1 < 64 && v2 < 64
    ensures DecodeBase64([Symbol(v0), Symbol(v1), '=', '=']) == Some([(v0 * 4 + v1 / 16) as byte])
    ensures DecodeBase64([Symbol(v0), Symbol(v1), Symbol(v2), '='])
            == Some([(v0 * 4 + v1 / 16) as byte, (v1 % 16 * 16 + v2 / 4) as byte])
  {
    SymbolRoundTrip(v0);
    SymbolRoundTrip(v1);
    SymbolRoundTrip(v2);
    assert [Symbol(v0), Symbol(v1), '=', '='][2..] == "==";
  }

  lemma OneByte(x: byte)
    ensures DecodeBase64(EncodeBase64([x])) == Some([x])
  {
    var n := x as int;
    assert n % 4 * 16 / 16 == n % 4;
    DecodePadded(n / 4, n % 4 * 16, 0);
  }

  lemma EncodeTwo(x: byte, y: byte, v0: nat, v1: nat, v2: nat)
    requires v0 == x as int / 4 && v1 == x as int % 4 * 16 + y as int / 16 && v2 == y as int % 16 * 4
    requires v0 < 64 && v1 < 64 && v2 < 64
    ensures EncodeBase64([x, y]) == [Symbol(v0), Symbol(v1), Symbol(v2), '=']
  {
  }

  lemma TwoBytes(x: byte, y: byte)
    ensures DecodeBase64(EncodeBase64([x, y])) == Some([x, y])
  {
    var v0, v1, v2 := x as int / 4, x as int % 4 * 16 + y as int / 16, y as int % 16 * 4;
    Sextets(x as int, y as int, 0);
    EncodeTwo(x, y, v0, v1, v2);
    DecodePadded(v0, v1, v2);
  }

  lemma EncodeThree(x: byte, y: byte, z: byte, rest: Bytes, v0: nat, v1: nat, v2: nat, v3: nat)
    requires v0 == x as int / 4 && v1 == x as int % 4 * 16 + y as int / 16
    requires v2 == y as int % 16 * 4 + z as int / 64 && v3 == z as int % 64
    requires v0 < 64 && v1 < 64 && v2 < 64 && v3 < 64
    ensures EncodeBase64([x, y, z] + rest) == [Symbol(v0), Symbol(v1), Symbol(v2), Symbol(v3)] + EncodeBase64(rest)
  {
    var b := [x, y, z] + rest;
    assert b[3..] == rest && b[0] == x && b[1] == y && b[2] == z;
  }

  lemma ThreeBytes(x: byte, y: byte, z: byte, rest: Bytes)
    requires DecodeBase64(EncodeBase64(rest)) == Some(rest)
    ensures DecodeBase64(EncodeBase64([x, y, z] + rest)) == Some([x, y, z] + rest)
  {
    var v0, v1 := x as int / 4, x as int % 4 * 16 + y as int / 16;
    var v2, v3 := y as int % 16 * 4 + z as int / 64, z as int % 64;
    Sextets(x as int, y as int, z as int);
    EncodeThree(x, y, z, rest, v0, v1, v2, v3);
    DecodeGroup(v0, v1, v2, v3, EncodeBase64(rest));
  }

  lemma OneByteRoundTrip(b: Bytes)
    requires |b| == 1
    ensures DecodeBase64(EncodeBase64(b)) == Some(b)
  {
    OneByte(b[0]);
    assert b == [b[0]];
  }

  lemma TwoByteRoundTrip(b: Bytes)
    requires |b| == 2
    ensures DecodeBase64(EncodeBase64(b)) == Some(b)
  {
    TwoBytes(b[0], b[1]);
    assert b == [b[0], b[1]];
  }

  lemma LongRoundTrip(b: Bytes)
    requires |b| > 2 && DecodeBase64(EncodeBase64(b[3..])) == Some(b[3..])
    ensures DecodeBase64(EncodeBase64(b)) == Some(b)
  {
    ThreeBytes(b[0], b[1], b[2], b[3..]);
    assert b == [b[0], b[1], b[2]] + b[3..];
  }

  lemma {:induction false} Base64RoundTrip(b: Bytes)
    ensures DecodeBase64(EncodeBase64(b)) == Some(b)
    decreases |b|
  {
    match |b|
    case 0 =>
    case 1 => OneByteRoundTrip(b);
    case 2 => TwoByteRoundTrip(b);
    case _ =>
      Base64RoundTrip(b[3..]);
      LongRoundTrip(b);
  }

  lemma {:induction false} Base64IsVisible(b: Bytes)
    ensures forall k :: 0 <= k < |EncodeBase64(b)| ==> 33 <= EncodeBase64(b)[k] as int <= 126
    decreases |b|
  {
    if |b| >= 3 {
      Base64IsVisible(b[3..]);
    }
  }

  lemma WrappedForm(b: Bytes)
    ensures var s := PREFIX + EncodeBase64(b) + SUFFIX;
            && LooksWrapped(s) && Trimmed(s) && Visible(s)
            && s[|PREFIX|..|s| - |SUFFIX|] == EncodeBase64(b)
  {
    Base64IsVisible(b);
    var s := PREFIX + EncodeBase64(b) + SUFFIX;
    assert s[..|PREFIX|] == PREFIX;
    assert s[|s| - 1] == '=' && s[0] == '=';
    assert s[|s| - |SUFFIX|..] == SUFFIX;
    forall k | 0 <= k < |s| ensures 32 <= s[k] as int <= 126 {
      if k < |PREFIX| {
        assert s[k] == PREFIX[k];
      } else if k < |s| - |SUFFIX| {
        assert s[k] == EncodeBase64(b)[k - |PREFIX|];
      } else {
        assert s[k] == SUFFIX[k - (|s| - |SUFFIX|)];
      }
    }
  }

  /** Every text survives the header, also one that looks like the wrapper itself. */
  lemma HeaderRoundTrip(value: string)
    ensures DecodeModernHeader(ModernHeader(value)) == Value(value)
  {
    if !Trimmed(value) || !Visible(value) || LooksWrapped(value) {
      WrappedForm(EncodeUtf8(value));
      Base64RoundTrip(EncodeUtf8(value));
      Utf8RoundTrip(value);
    }
  }

  /** What goes into the header is trimmed visible ASCII. */
  lemma HeaderIsTransportable(value: string)
    ensures Trimmed(ModernHeader(value)) && Visible(ModernHeader(value))
  {
    WrappedForm(EncodeUtf8(value));
  }

  /** Different values never share a header. */
  lemma HeadersAreInjective(v: string, w: string)
    requires ModernHeader(v) == ModernHeader(w)
    ensures v == w
  {
    HeaderRoundTrip(v);
    HeaderRoundTrip(w);
  }
}
