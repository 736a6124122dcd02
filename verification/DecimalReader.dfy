/** Reading a decimal numeral, as the facade does when it compares integer headers (stdio_http_facade.py,
    _validate_tool_headers): Python's decimal syntax with ASCII digits, finite values only. */
module DecimalReader {
  import opened Common
  import opened MessageClass

  predicate IsDigit(c: char) {
    '0' <= c <= '9'
  }

  predicate IsBlank(c: char) {
    c == ' ' || c as int == 9 || c as int == 10 || c as int == 11 || c as int == 12 || c as int == 13
  }

  predicate AllDigits(s: string) {
    forall c | c in s :: IsDigit(c)
  }

  function ValueOf(digits: string): nat
    requires AllDigits(digits)
  {
    if digits == "" then 0
    else
      var last := digits[|digits| - 1];
      assert last in digits;
      10 * ValueOf(digits[..|digits| - 1]) + (last as int - '0' as int)
  }

  function StripLeft(s: string): string {
    if s != "" && IsBlank(s[0]) then StripLeft(s[1..]) else s
  }

  function StripRight(s: string): string {
    if s != "" && IsBlank(s[|s| - 1]) then StripRight(s[..|s| - 1]) else s
  }

  function DropUnderscores(s: string): string {
    if s == "" then "" else DropUnderscores(s[..|s| - 1]) + if s[|s| - 1] == '_' then "" else [s[|s| - 1]]
  }

  /** Where one of two characters first stands, or the length. */
  function IndexOf(s: string, one: char, other: char): (i: nat)
    ensures i <= |s|
    ensures i == |s| <==> one !in s && other !in s
  {
    if s == "" || s[0] == one || s[0] == other then 0 else 1 + IndexOf(s[1..], one, other)
  }

  function Scale(k: int): real
    decreases if k < 0 then -k else k
  {
    if k == 0 then 1.0 else if k > 0 then 10.0 * Scale(k - 1) else Scale(k + 1) / 10.0
  }

  /** An optional sign, and what follows it. */
  function Signed(s: string): (bool, string) {
    if s != "" && (s[0] == '-' || s[0] == '+') then (s[0] == '-', s[1..]) else (false, s)
  }

  function Exponent(s: string): Option<int> {
    var (negative, digits) := Signed(s);
    if digits == "" || !AllDigits(digits) then None
    else Some((if negative then -1 else 1) * ValueOf(digits))
  }

  /** Digits with at most one point among them, scaled by a power of ten. */
  function Scaled(s: string, exponent: int): Option<real> {
    var point := IndexOf(s, '.', '.');
    var whole, fraction := s[..point], if point < |s| then s[point + 1..] else "";
    if whole + fraction == "" || !AllDigits(whole + fraction) then None
    else Some(ValueOf(whole + fraction) as real * Scale(exponent - |fraction|))
  }

  function Unsigned(s: string): Option<real> {
    var mark := IndexOf(s, 'e', 'E');
    if mark == |s| then Scaled(s, 0)
    else
      match Exponent(s[mark + 1..])
      case None => None
      case Some(k) => Scaled(s[..mark], k)
  }

  function Numeral(text: string): Option<real> {
    var (negative, rest) := Signed(DropUnderscores(StripRight(StripLeft(text))));
    match Unsigned(rest)
    case None => None
    case Some(value) => Some(if negative then -value else value)
  }

  // ---------------------------------------------------------------- it reads integers as themselves

  lemma {:induction false} DigitsReadBack(n: nat)
    ensures AllDigits(Digits(n)) && Digits(n) != "" && ValueOf(Digits(n)) == n
  {
    if n < 10 {
      assert Digits(n)[..0] == "";
    } else {
      DigitsReadBack(n / 10);
      assert Digits(n)[..|Digits(n)| - 1] == Digits(n / 10);
    }
  }

  lemma {:induction false} NothingToDrop(s: string)
    requires '_' !in s
    ensures DropUnderscores(s) == s
  {
    if s != "" {
      NothingToDrop(s[..|s| - 1]);
      assert s == s[..|s| - 1] + [s[|s| - 1]];
    }
  }

  lemma DigitsAreUnsigned(s: string)
    requires AllDigits(s) && s != ""
    ensures Unsigned(s) == Some(ValueOf(s) as real)
  {
    assert 'e' !in s && 'E' !in s && '.' !in s;
    assert s[..|s|] + "" == s;
    assert Scaled(s, 0) == Some(ValueOf(s) as real * Scale(0));
  }

  lemma NothingToStrip(s: string)
    requires s != "" && !IsBlank(s[0]) && !IsBlank(s[|s| - 1]) && '_' !in s
    ensures DropUnderscores(StripRight(StripLeft(s))) == s
  {
    NothingToDrop(s);
  }

  lemma SignedDigits(n: int)
    ensures var digits := Digits(if n < 0 then -n else n);
            AllDigits(digits) && digits != "" && Signed(Decimal(n)) == (n < 0, digits) && '_' !in Decimal(n)
    ensures Decimal(n) != "" && !IsBlank(Decimal(n)[0]) && !IsBlank(Decimal(n)[|Decimal(n)| - 1])
  {
    var digits := Digits(if n < 0 then -n else n);
    DigitsReadBack(if n < 0 then -n else n);
    assert IsDigit(digits[0]) && IsDigit(digits[|digits| - 1]);
    if n < 0 {
      assert Decimal(n) == "-" + digits && Decimal(n)[1..] == digits;
    }
  }

  /** Every integer's decimal text reads as that integer. */
  lemma NumeralReadsIntegers(n: int)
    ensures Numeral(Decimal(n)) == Some(n as real)
  {
    var m := if n < 0 then -n else n;
    SignedDigits(n);
    NothingToStrip(Decimal(n));
    DigitsReadBack(m);
    DigitsAreUnsigned(Digits(m));
    assert Unsigned(Digits(m)) == Some(m as real);
  }
}
